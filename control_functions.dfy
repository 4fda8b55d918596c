/**
 * The lookup tables of ECMA-48 (5th edition) control functions, the
 * control-sequence value and its serialisation, the decoding of its
 * numeric parameters, and the `printable` escaper.
 *
 * Character data is modelled as Kotlin `Char` codes (`CharCode`, 16 bits);
 * the tokenizer works on those codes.
 */
module ControlFunctions {
  import opened Wrappers
  import opened Text

  /** A Kotlin `Char`, as its UTF-16 code unit. */
  type CharCode = c: int | 0 <= c < 0x1_0000

  const ESC: CharCode := 0x1B
  const LEFT_BRACKET: CharCode := 0x5B

  /** `Int.toChar()`: keeps the low 16 bits of the value. */
  function ToChar(i: int): (c: CharCode)
    ensures c % 0x1_0000 == i % 0x1_0000
    ensures 0 <= i < 0x1_0000 ==> c == i
  {
    i % 0x1_0000
  }

  // ---------------------------------------------------------------- C0

  /** ECMA-48 section 5.2: 32 functions, each encoded by its ordinal. */
  datatype C0Function =
    | NUL | SOH | STX | ETX | EOT | ENQ | ACK | BEL | BS  | HT  | LF  | VT  | FF  | CR  | LS0 | LS1
    | DLE | DC1 | DC2 | DC3 | DC4 | NAK | SYN | ETB | CAN | EM  | SUB | ESC_ | IS4 | IS3 | IS2 | IS1
  {
    /** The ordinal, which is also the bit combination. */
    function Code(): (c: int)
      ensures 0 <= c < 0x20
    {
      match this
      case NUL => 0x00 case SOH => 0x01 case STX => 0x02 case ETX => 0x03
      case EOT => 0x04 case ENQ => 0x05 case ACK => 0x06 case BEL => 0x07
      case BS  => 0x08 case HT  => 0x09 case LF  => 0x0A case VT  => 0x0B
      case FF  => 0x0C case CR  => 0x0D case LS0 => 0x0E case LS1 => 0x0F
      case DLE => 0x10 case DC1 => 0x11 case DC2 => 0x12 case DC3 => 0x13
      case DC4 => 0x14 case NAK => 0x15 case SYN => 0x16 case ETB => 0x17
      case CAN => 0x18 case EM  => 0x19 case SUB => 0x1A case ESC_ => 0x1B
      case IS4 => 0x1C case IS3 => 0x1D case IS2 => 0x1E case IS1 => 0x1F
    }

    /** `str`: the single character whose code is the ordinal. */
    function Str(): seq<CharCode> { [Code()] }
  }

  /** `C0Function.entries`, in declaration order. */
  const C0Entries: seq<C0Function> := [
    NUL, SOH, STX, ETX, EOT, ENQ, ACK, BEL, BS,  HT,  LF,  VT,  FF,  CR,  LS0, LS1,
    DLE, DC1, DC2, DC3, DC4, NAK, SYN, ETB, CAN, EM,  SUB, ESC_, IS4, IS3, IS2, IS1]

  /** `C0Function[code]`, i.e. `entries.getOrNull(code)`. */
  function C0Find(code: int): (r: Option<C0Function>)
    ensures r.Some? <==> 0 <= code < 0x20
    ensures r.Some? ==> r.value.Code() == code
  {
    if 0 <= code < |C0Entries| then
      C0EntriesLow();
      C0EntriesHigh();
      Some(C0Entries[code])
    else None
  }

  /** The entries are listed in the order of their codes. */
  lemma C0EntriesLow()
    ensures forall i :: 0 <= i < 0x10 ==> C0Entries[i].Code() == i
  {
  }

  lemma C0EntriesHigh()
    ensures forall i :: 0x10 <= i < 0x20 ==> C0Entries[i].Code() == i
  {
  }

  lemma C0FindCode(f: C0Function)
    ensures C0Find(f.Code()) == Some(f)
  {
    match f
    case NUL => case SOH => case STX => case ETX => case EOT => case ENQ => case ACK => case BEL =>
    case BS  => case HT  => case LF  => case VT  => case FF  => case CR  => case LS0 => case LS1 =>
    case DLE => case DC1 => case DC2 => case DC3 => case DC4 => case NAK => case SYN => case ETB =>
    case CAN => case EM  => case SUB => case ESC_ => case IS4 => case IS3 => case IS2 => case IS1 =>
  }

  // ---------------------------------------------------------------- C1

  /** ECMA-48 section 5.3: 28 functions, each identified by a base in 0x00..0x1F. */
  datatype C1Function =
    | DCS | PU1 | BPH | PU2 | BNH | STS | CCH | NEL | MW  | SSA | SPA | ESA | EPA | HTS
    | SOS | HTJ | VTS | SCI | PLD | CSI | PLU | ST  | RI  | OSC | SS2 | PM  | SS3 | APC
  {
    function Base(): (b: int)
      ensures 0 <= b < 0x20 && b != 0x00 && b != 0x01 && b != 0x04 && b != 0x19
    {
      match this
      case DCS => 0x10 case PU1 => 0x11 case BPH => 0x02 case PU2 => 0x12
      case BNH => 0x03 case STS => 0x13 case CCH => 0x14 case NEL => 0x05
      case MW  => 0x15 case SSA => 0x06 case SPA => 0x16 case ESA => 0x07
      case EPA => 0x17 case HTS => 0x08 case SOS => 0x18 case HTJ => 0x09
      case VTS => 0x0A case SCI => 0x1A case PLD => 0x0B case CSI => 0x1B
      case PLU => 0x0C case ST  => 0x1C case RI  => 0x0D case OSC => 0x1D
      case SS2 => 0x0E case PM  => 0x1E case SS3 => 0x0F case APC => 0x1F
    }

    function Code7Bit(): int { Base() + 0x40 }
    function Code8Bit(): int { Base() + 0x80 }

    /** `str`: the 7-bit form, ESC followed by `code7bit`. */
    function Str(): (s: seq<CharCode>)
      ensures |s| == 2 && s[0] == ESC && 0x40 <= s[1] < 0x60
      ensures s == [ESC, Base() + 0x40]
    {
      [ESC, Code7Bit()]
    }
  }

  /** The C1 function with the given base, if the table lists one. */
  function C1ByBase(base: int): (r: Option<C1Function>)
    ensures r.Some? <==> IsC1Base(base)
    ensures r.Some? ==> r.value.Base() == base
  {
    if base < 0x10 then C1ByLowBase(base) else C1ByHighBase(base)
  }

  function C1ByLowBase(base: int): (r: Option<C1Function>)
    requires base < 0x10
    ensures r.Some? <==> IsC1Base(base)
    ensures r.Some? ==> r.value.Base() == base
  {
    match base
    case 0x02 => Some(BPH) case 0x03 => Some(BNH) case 0x05 => Some(NEL)
    case 0x06 => Some(SSA) case 0x07 => Some(ESA) case 0x08 => Some(HTS)
    case 0x09 => Some(HTJ) case 0x0A => Some(VTS) case 0x0B => Some(PLD)
    case 0x0C => Some(PLU) case 0x0D => Some(RI)  case 0x0E => Some(SS2)
    case 0x0F => Some(SS3)
    case _ => None
  }

  function C1ByHighBase(base: int): (r: Option<C1Function>)
    requires base >= 0x10
    ensures r.Some? <==> IsC1Base(base)
    ensures r.Some? ==> r.value.Base() == base
  {
    match base
    case 0x10 => Some(DCS) case 0x11 => Some(PU1)
    case 0x12 => Some(PU2) case 0x13 => Some(STS) case 0x14 => Some(CCH)
    case 0x15 => Some(MW)  case 0x16 => Some(SPA) case 0x17 => Some(EPA)
    case 0x18 => Some(SOS) case 0x1A => Some(SCI) case 0x1B => Some(CSI)
    case 0x1C => Some(ST)  case 0x1D => Some(OSC) case 0x1E => Some(PM)
    case 0x1F => Some(APC)
    case _ => None
  }

  predicate IsC1Base(b: int) { 0 <= b < 0x20 && b != 0x00 && b != 0x01 && b != 0x04 && b != 0x19 }

  /**
   * `C1Function[code]`: the map keyed by both the 7-bit and the 8-bit
   * representation (the two key ranges 0x40..0x5F and 0x80..0x9F are disjoint).
   */
  function C1Find(code: int): (r: Option<C1Function>)
    ensures r.Some? <==> IsC1Base(code - 0x40) || IsC1Base(code - 0x80)
    ensures r.Some? ==> r.value.Code7Bit() == code || r.value.Code8Bit() == code
  {
    if 0x40 <= code < 0x60 then C1ByBase(code - 0x40)
    else if 0x80 <= code < 0xA0 then C1ByBase(code - 0x80)
    else None
  }

  /** Both encodings of every function are keys of the table, and lead back to it. */
  lemma C1FindCodes(f: C1Function)
    ensures C1Find(f.Code7Bit()) == Some(f) && C1Find(f.Code8Bit()) == Some(f)
  {
  }

  /** The four unused bases leave holes in both halves of the table. */
  lemma C1Gaps()
    ensures C1Find(0x40) == None && C1Find(0x41) == None && C1Find(0x44) == None && C1Find(0x59) == None
    ensures C1Find(0x80) == None && C1Find(0x81) == None && C1Find(0x84) == None && C1Find(0x99) == None
  {
  }

  // ---------------------------------------------------------------- control sequences

  /** `parameterRange` */
  predicate IsParameterByte(b: int) { 0x30 <= b <= 0x3F }

  /** `intermediateRange`: 0x20..0x25, narrower than the 0x20..0x2F of section 5.4. */
  predicate IsIntermediateByte(b: int) { 0x20 <= b <= 0x25 }

  /** Mnemonics of the standard functions without an intermediate byte; "" where there is none. */
  function PlainName(final: int): string
  {
    match final
    case 0x40 => "ICH"  case 0x41 => "CUU"  case 0x42 => "CUD"  case 0x43 => "CUF"
    case 0x44 => "CUB"  case 0x45 => "CNL"  case 0x46 => "CPL"  case 0x47 => "CHA"
    case 0x48 => "CUP"  case 0x49 => "CHT"  case 0x4A => "ED"   case 0x4B => "EL"
    case 0x4C => "IL"   case 0x4D => "DL"   case 0x4E => "EF"   case 0x4F => "EA"
    case 0x50 => "DCH"  case 0x51 => "SSE"  case 0x52 => "CPR"  case 0x53 => "SU"
    case 0x54 => "SD"   case 0x55 => "NP"   case 0x56 => "PP"   case 0x57 => "CTC"
    case 0x58 => "ECH"  case 0x59 => "CVT"  case 0x5A => "CBT"  case 0x5B => "SRS"
    case 0x5C => "PTX"  case 0x5D => "SDS"  case 0x5E => "SIMD"
    case 0x60 => "HPA"  case 0x61 => "HPR"  case 0x62 => "REP"  case 0x63 => "DA"
    case 0x64 => "VPA"  case 0x65 => "VPR"  case 0x66 => "HVP"  case 0x67 => "TBC"
    case 0x68 => "SM"   case 0x69 => "MC"   case 0x6A => "HPB"  case 0x6B => "VPB"
    case 0x6C => "RM"   case 0x6D => "SGR"  case 0x6E => "DSR"  case 0x6F => "DAQ"
    case _ => ""
  }

  /** Mnemonics of the standard functions with the single intermediate byte 0x20. */
  function SpacedName(final: int): string
  {
    match final
    case 0x40 => "SL"   case 0x41 => "SR"   case 0x42 => "GSM"  case 0x43 => "GSS"
    case 0x44 => "FNT"  case 0x45 => "TSS"  case 0x46 => "JFY"  case 0x47 => "SPI"
    case 0x48 => "QUAD" case 0x49 => "SSU"  case 0x4A => "PFS"  case 0x4B => "SHS"
    case 0x4C => "SVS"  case 0x4D => "IGS"  case 0x4F => "IDCS"
    case 0x50 => "PPA"  case 0x51 => "PPR"  case 0x52 => "PPB"  case 0x53 => "SPD"
    case 0x54 => "DTA"  case 0x55 => "SHL"  case 0x56 => "SLL"  case 0x57 => "FNK"
    case 0x58 => "SPQR" case 0x59 => "SEF"  case 0x5A => "PEC"  case 0x5B => "SSW"
    case 0x5C => "SACS" case 0x5D => "SAPV" case 0x5E => "STAB" case 0x5F => "GCC"
    case 0x60 => "TATE" case 0x61 => "TALE" case 0x62 => "TAC"  case 0x63 => "TCC"
    case 0x64 => "TSR"  case 0x65 => "SCO"  case 0x66 => "SRCS" case 0x67 => "SCS"
    case 0x68 => "SLS"  case 0x6B => "SCP"
    case _ => ""
  }

  /**
   * A `StandardCSFunction` entry, identified by the key its table is built on:
   * the final byte and whether it carries the intermediate byte 0x20.
   */
  datatype StandardCSFunction = StandardCSFunction(final: int, spaced: bool)
  {
    function Name(): string { if spaced then SpacedName(final) else PlainName(final) }
  }

  const SGR := StandardCSFunction(0x6D, false)

  /**
   * The keys of the `StandardCSFunction` table: 0x40..0x6F without an
   * intermediate byte except 0x5F, and 0x40..0x6B with 0x20 except 0x4E,
   * 0x69 and 0x6A.
   */
  predicate IsStandardKey(final: int, spaced: bool)
  {
    if spaced then 0x40 <= final <= 0x6B && final != 0x4E && final != 0x69 && final != 0x6A
    else 0x40 <= final <= 0x6F && final != 0x5F
  }

  /** The keys are exactly the entries that have a mnemonic. */
  lemma StandardKeysNamed(final: int, spaced: bool)
    ensures IsStandardKey(final, spaced) <==> StandardCSFunction(final, spaced).Name() != ""
  {
  }

  /** `StandardCSFunction[code, has0x20Intermediate]` */
  function StandardFind(code: int, spaced: bool): (r: Option<StandardCSFunction>)
    ensures r.Some? <==> IsStandardKey(code, spaced)
    ensures r.Some? ==> r.value.final == code && r.value.spaced == spaced
  {
    if IsStandardKey(code, spaced) then Some(StandardCSFunction(code, spaced)) else None
  }

  /** The plain table covers 0x40..0x6F except 0x5F; SGR is its entry 0x6D. */
  lemma StandardPlainDomain(code: int)
    ensures StandardFind(code, false).Some? <==> 0x40 <= code <= 0x6F && code != 0x5F
    ensures StandardFind(0x6D, false) == Some(SGR) && SGR.Name() == "SGR"
  {
  }

  /** The 0x20 table covers 0x40..0x6F except 0x4E, 0x69, 0x6A and 0x6C..0x6F. */
  lemma StandardSpacedDomain(code: int)
    ensures StandardFind(code, true).Some? <==>
      0x40 <= code <= 0x6F && code != 0x4E && code != 0x69 && code != 0x6A && !(0x6C <= code <= 0x6F)
  {
  }

  /** `CSFunction`: a standard table entry, or a private function built from its bytes. */
  datatype CSFunction = Standard(std: StandardCSFunction) | Private(privateFinal: int, privateIntermediate: seq<int>)
  {
    function Final(): int { if Standard? then std.final else privateFinal }

    function Intermediate(): seq<int> { if Standard? then (if std.spaced then [0x20] else []) else privateIntermediate }

    /** `str`: the intermediate bytes followed by the final byte. */
    function Str(): (s: seq<CharCode>)
      ensures |s| == |Intermediate()| + 1
    {
      CodesStr(Intermediate()) + [ToChar(Final())]
    }

    /**
     * `isSame`, as written: true only when the OTHER function is private
     * and has the same final and intermediate bytes.
     */
    function IsSame(other: CSFunction): (b: bool)
      ensures b ==> other.Private? && Final() == other.Final() && Intermediate() == other.Intermediate()
      ensures b ==> Str() == other.Str()
    {
      other.Private? && Final() == other.privateFinal && Intermediate() == other.privateIntermediate
    }
  }

  /** What `CSFunction[code, intermediate]` does: a function, null, or the exception of `single()`. */
  datatype CSLookup = Found(found: CSFunction) | NotFound | TooManyIntermediates

  /**
   * `CSFunction[code, intermediate]`. A null intermediate array behaves
   * like an empty one in every branch, so only arrays are modelled.
   */
  function CSFind(code: int, intermediate: seq<int>): (r: CSLookup)
    ensures r.Found? ==> r.found.Final() == code && r.found.Intermediate() == intermediate
    ensures r.TooManyIntermediates? <==> 0x40 <= code <= 0x6F && |intermediate| >= 2
  {
    if 0x40 <= code <= 0x6F && |intermediate| == 0 then
      (match StandardFind(code, false) case Some(f) => Found(Standard(f)) case None => NotFound)
    else if 0x40 <= code <= 0x6F && |intermediate| != 1 then
      TooManyIntermediates
    else if 0x40 <= code <= 0x6F && intermediate[0] == 0x20 then
      (match StandardFind(code, true) case Some(f) => Found(Standard(f)) case None => NotFound)
    else if 0x70 <= code <= 0x7F then
      Found(Private(code, intermediate))
    else
      NotFound
  }

  /** The branches of `CSFunction[code, intermediate]`, stated one by one. */
  lemma CSFindCases(code: int, intermediate: seq<int>)
    ensures 0x40 <= code <= 0x6F && intermediate == [] ==>
      CSFind(code, intermediate) == (if code == 0x5F then NotFound else Found(Standard(StandardCSFunction(code, false))))
    ensures 0x40 <= code <= 0x6F && intermediate == [0x20] ==>
      CSFind(code, intermediate) ==
        (if code == 0x4E || code == 0x69 || code == 0x6A || code >= 0x6C then NotFound
         else Found(Standard(StandardCSFunction(code, true))))
    ensures 0x40 <= code <= 0x6F && |intermediate| == 1 && intermediate[0] != 0x20 ==>
      CSFind(code, intermediate) == NotFound
    ensures 0x70 <= code <= 0x7F ==> CSFind(code, intermediate) == Found(Private(code, intermediate))
    ensures !(0x40 <= code <= 0x7F) ==> CSFind(code, intermediate) == NotFound
  {
    StandardPlainDomain(code);
    StandardSpacedDomain(code);
  }

  /** `IntArray.str`: every code turned into a character with `toChar()`. */
  function CodesStr(codes: seq<int>): (s: seq<CharCode>)
    ensures |s| == |codes|
    ensures forall i :: 0 <= i < |codes| ==> s[i] == ToChar(codes[i])
  {
    if codes == [] then [] else [ToChar(codes[0])] + CodesStr(codes[1..])
  }

  lemma {:induction false} CodesStrIdentity(codes: seq<CharCode>)
    ensures CodesStr(codes) == codes
  {
    if codes != [] {
      CodesStrIdentity(codes[1..]);
    }
  }

  /** A control sequence as the tokenizer produces it (ECMA-48 section 5.4). */
  datatype ControlSequence = ControlSequence(controlFunction: CSFunction, parameterBytes: seq<int>, intermediateBytes: seq<int>)
  {
    /** `str`: CSI in its 7-bit form, the parameter bytes, then the function's own `str`. */
    function Str(): (s: seq<CharCode>)
      ensures s == CSI.Str() + CodesStr(parameterBytes) + controlFunction.Str()
      ensures s[..2] == [ESC, LEFT_BRACKET]
    {
      [ESC, LEFT_BRACKET] + CodesStr(parameterBytes) + controlFunction.Str()
    }

    /** `parameterChars` */
    function ParameterChars(): (c: string)
      requires forall i :: 0 <= i < |parameterBytes| ==> IsParameterByte(parameterBytes[i])
      ensures |c| == |parameterBytes|
      ensures forall i :: 0 <= i < |c| ==> '0' <= c[i] <= '?' && c[i] as int == parameterBytes[i]
    {
      seq(|parameterBytes|, i requires 0 <= i < |parameterBytes| && IsParameterByte(parameterBytes[i]) => parameterBytes[i] as char)
    }

    /**
     * `parameters`: split on ';'; a segment made of digits only gives its
     * decimal value, any other segment (empty, or holding one of ':<=>?')
     * gives 1.
     */
    function Parameters(): (ps: seq<nat>)
      requires forall i :: 0 <= i < |parameterBytes| ==> IsParameterByte(parameterBytes[i])
      ensures |ps| > 0
      ensures parameterBytes == [] ==> ps == [1]
    {
      var segments := Split(ParameterChars(), ';');
      assert parameterBytes == [] ==> segments == [""];
      seq(|segments|, k requires 0 <= k < |segments| => SegmentValue(segments[k]))
    }

    /** `equals`, without the `===` shortcut: `isSame` on the functions and equal byte arrays. */
    function Equals(other: ControlSequence): (b: bool)
      ensures b ==> other.controlFunction.Private?
      ensures b ==> Str() == other.Str()
    {
      controlFunction.IsSame(other.controlFunction)
      && parameterBytes == other.parameterBytes
      && intermediateBytes == other.intermediateBytes
    }
  }

  function SegmentValue(segment: string): (v: nat)
    ensures !(|segment| > 0 && AllDigits(segment)) ==> v == 1
    ensures |segment| > 0 && AllDigits(segment) ==> v == DigitsValue(segment)
  {
    if |segment| > 0 && AllDigits(segment) then DigitsValue(segment) else 1
  }

  /** The parameter characters of a decimal list joined by ';'. */
  function JoinedParameters(values: seq<nat>): string
  {
    Join(Decimals(values), ';')
  }

  /** `parameters` reads back exactly the values a `;`-joined decimal list was written from. */
  lemma ParametersOfJoined(values: seq<nat>, f: CSFunction)
    requires |values| > 0
    ensures var chars := JoinedParameters(values);
      var cs := ControlSequence(f, seq(|chars|, i requires 0 <= i < |chars| => chars[i] as int), []);
      (forall i :: 0 <= i < |cs.parameterBytes| ==> IsParameterByte(cs.parameterBytes[i]))
      && cs.Parameters() == values
  {
    var parts := Decimals(values);
    var chars := Join(parts, ';');
    JoinDigitsOrSemicolon(parts);
    var cs := ControlSequence(f, seq(|chars|, i requires 0 <= i < |chars| => chars[i] as int), []);
    assert forall i :: 0 <= i < |cs.parameterBytes| ==> cs.parameterBytes[i] == chars[i] as int;
    assert cs.ParameterChars() == chars;
    forall k | 0 <= k < |parts| ensures ';' !in parts[k] {
      assert AllDigits(parts[k]);
    }
    SplitJoin(parts, ';');
    forall k | 0 <= k < |values| ensures SegmentValue(parts[k]) == values[k] {
      NatToStringRoundTrip(values[k]);
    }
  }

  lemma {:induction false} JoinDigitsOrSemicolon(parts: seq<string>)
    requires forall k :: 0 <= k < |parts| ==> AllDigits(parts[k])
    ensures forall i :: 0 <= i < |Join(parts, ';')| ==> IsParameterByte(Join(parts, ';')[i] as int)
  {
    var s := Join(parts, ';');
    if |parts| > 1 {
      JoinDigitsOrSemicolon(parts[1..]);
      var rest := Join(parts[1..], ';');
      assert s == parts[0] + [';'] + rest;
      forall i | 0 <= i < |s| ensures IsParameterByte(s[i] as int) {
        if i < |parts[0]| {
          assert s[i] == parts[0][i] && IsDigit(parts[0][i]);
        } else if i == |parts[0]| {
          assert s[i] == ';';
        } else {
          assert s[i] == rest[i - |parts[0]| - 1];
          assert IsParameterByte(rest[i - |parts[0]| - 1] as int);
        }
      }
    } else if |parts| == 1 {
      forall i | 0 <= i < |s| ensures IsParameterByte(s[i] as int) {
        assert IsDigit(parts[0][i]);
      }
    }
  }

  /** Parameters of the test sequence `ESC [31;42m`. */
  lemma ParametersExample(cs: ControlSequence)
    requires cs == ControlSequence(Standard(SGR), [0x33, 0x31, 0x3B, 0x34, 0x32], [])
    ensures cs.Parameters() == [31, 42]
  {
    var chars := JoinedParameters([31, 42]);
    assert NatToString(31) == NatToString(3) + [DigitChar(1)] == "31";
    assert NatToString(42) == NatToString(4) + [DigitChar(2)] == "42";
    assert Decimals([31, 42]) == ["31", "42"];
    JoinCons("31", ["42"], ';');
    assert chars == "31;42";
    assert cs.parameterBytes == seq(|chars|, i requires 0 <= i < |chars| => chars[i] as int);
    ParametersOfJoined([31, 42], Standard(SGR));
  }

  /** A sequence whose function is standard is equal to nothing, itself included. */
  lemma StandardNeverEquals(a: ControlSequence, b: ControlSequence)
    requires b.controlFunction.Standard?
    ensures !a.Equals(b)
  {
  }

  /**
   * Once the other side carries a private function, `equals` is structural
   * equality, whichever kind of function the receiver has: a standard
   * function is equal to the private one with its final and intermediate
   * bytes, but not the other way round.
   */
  lemma PrivateEquals(a: ControlSequence, b: ControlSequence)
    requires b.controlFunction.Private?
    ensures a.controlFunction.Private? ==> (a.Equals(b) <==> a == b)
    ensures a.controlFunction.Private? ==> (a.Equals(b) <==> b.Equals(a))
    ensures a.Equals(b) <==>
      a.controlFunction.Final() == b.controlFunction.privateFinal
      && a.controlFunction.Intermediate() == b.controlFunction.privateIntermediate
      && a.parameterBytes == b.parameterBytes && a.intermediateBytes == b.intermediateBytes
  {
  }

  /** A standard function `isSame` the private function with its bytes, and not the reverse. */
  lemma IsSameAsymmetric(f: StandardCSFunction)
    ensures var p := Private(f.final, if f.spaced then [0x20] else []);
      Standard(f).IsSame(p) && !p.IsSame(Standard(f))
  {
  }

  // ---------------------------------------------------------------- printable

  /** The four ranges of `ranges`. */
  predicate NonPrintable(c: char)
  {
    var n := c as int;
    n <= 0x1F || 0x7F <= n <= 0x9F || 0x200B <= n <= 0x200D || 0x202A <= n <= 0x202E
  }

  function HexDigit(d: int): (c: char)
    requires 0 <= d < 16
  {
    if d < 10 then (d + '0' as int) as char else (d - 10 + 'a' as int) as char
  }

  function HexValue(c: char): int
  {
    if '0' <= c <= '9' then c as int - '0' as int
    else if 'a' <= c <= 'f' then c as int - 'a' as int + 10
    else 0
  }

  /** `"\\u%04x".format(c.code)` */
  function Escape(c: char): (s: string)
    requires c as int < 0x1_0000
    ensures |s| == 6 && s[..2] == "\\u"
    ensures forall i :: 0 <= i < |s| ==> !NonPrintable(s[i])
  {
    var n := c as int;
    "\\u" + [HexDigit(n / 0x1000), HexDigit(n / 0x100 % 16), HexDigit(n / 0x10 % 16), HexDigit(n % 16)]
  }

  /** The four hexadecimal digits of an escape spell the character's code. */
  lemma EscapeValue(c: char)
    requires c as int < 0x1_0000
    ensures var s := Escape(c);
      HexValue(s[2]) * 0x1000 + HexValue(s[3]) * 0x100 + HexValue(s[4]) * 0x10 + HexValue(s[5]) == c as int
    ensures forall i :: 2 <= i < 6 ==> Escape(c)[i] in "0123456789abcdef"
  {
    var n := c as int;
    var s := Escape(c);
    var a := n / 0x10;
    var b := a / 0x10;
    var d := b / 0x10;
    assert n == a * 0x10 + n % 16;
    assert a == b * 0x10 + a % 16;
    assert b == d * 0x10 + b % 16;
    assert n == b * 0x100 + ((a % 16) * 0x10 + n % 16);
    assert n / 0x100 == b;
    assert n == d * 0x1000 + ((b % 16) * 0x100 + (a % 16) * 0x10 + n % 16);
    assert n / 0x1000 == d;
    HexRoundTrip(d);
    HexRoundTrip(b % 16);
    HexRoundTrip(a % 16);
    HexRoundTrip(n % 16);
  }

  lemma HexRoundTrip(d: int)
    requires 0 <= d < 16
    ensures HexValue(HexDigit(d)) == d
  {
  }

  /** One character of `printable()`: itself when printable, otherwise its escape. */
  function PrintChar(c: char): (s: string)
    ensures !NonPrintable(c) <==> s == [c]
    ensures forall i :: 0 <= i < |s| ==> !NonPrintable(s[i])
    ensures NonPrintable(c) ==> |s| == 6 && s[..2] == "\\u"
    ensures NonPrintable(c) ==>
      HexValue(s[2]) * 0x1000 + HexValue(s[3]) * 0x100 + HexValue(s[4]) * 0x10 + HexValue(s[5]) == c as int
    ensures NonPrintable(c) ==> s == Escape(c)
  {
    if NonPrintable(c) then EscapeValue(c); Escape(c) else [c]
  }

  /** `CharSequence.printable()`: each character replaced by its escape or copied, in order. */
  function Printable(s: string): (r: string)
    ensures |r| >= |s|
  {
    if s == [] then "" else PrintChar(s[0]) + Printable(s[1..])
  }

  /** Order is preserved: escaping distributes over concatenation. */
  lemma {:induction false} PrintableConcat(a: string, b: string)
    ensures Printable(a + b) == Printable(a) + Printable(b)
  {
    if a == [] {
      assert a + b == b;
    } else {
      assert (a + b)[0] == a[0];
      assert (a + b)[1..] == a[1..] + b;
      PrintableConcat(a[1..], b);
    }
  }

  /** Nothing non-printable survives. */
  lemma {:induction false} PrintableIsPrintable(s: string)
    ensures forall i :: 0 <= i < |Printable(s)| ==> !NonPrintable(Printable(s)[i])
  {
    if s != [] {
      PrintableIsPrintable(s[1..]);
      var head := PrintChar(s[0]);
      var r := Printable(s);
      assert r == head + Printable(s[1..]);
      forall i | 0 <= i < |r| ensures !NonPrintable(r[i]) {
        if i >= |head| {
          assert r[i] == Printable(s[1..])[i - |head|];
        }
      }
    }
  }

  /** A string without non-printable characters is returned unchanged. */
  lemma {:induction false} PrintableIdentity(s: string)
    requires forall i :: 0 <= i < |s| ==> !NonPrintable(s[i])
    ensures Printable(s) == s
  {
    if s != [] {
      PrintableIdentity(s[1..]);
    }
  }
}
