/**
 * `Ecma48Reader`: the tokenizer that turns a stream of characters into
 * literal characters, C0 functions, C1 functions and control sequences,
 * pushing back what it read ahead whenever a sequence turns out to be
 * truncated or unknown.
 *
 * `Read` is the pure specification of one call of `next()` on the
 * characters still pending (the pushback buffer followed by what the
 * source has not yet delivered); the class `Ecma48Reader` is proved to
 * follow it.
 */
module Ecma48Reading {
  import opened Wrappers
  import opened ControlFunctions
  import opened Text

  /** What `next()` returns: a one-character string or one of the three kinds of function. */
  datatype Token =
    | Literal(code: CharCode)
    | C0(c0: C0Function)
    | C1(c1: C1Function)
    | Sequence(sequence: ControlSequence)
  {
    /** `toString()` of the returned `CharSequence`. */
    function Str(): seq<CharCode>
    {
      match this
      case Literal(c) => [c]
      case C0(f) => f.Str()
      case C1(f) => f.Str()
      case Sequence(cs) => cs.Str()
    }
  }

  /** A call of `next()`: a token, or one of the two exceptions it lets escape. */
  datatype Outcome =
    | Emit(token: Token)
    | NoSuchElement      // buffer empty and the source at its end
    | IllegalArgument    // `single()` in `CSFunction[...]`: two or more intermediate bytes

  /**
   * The effect of one call on the pending characters: the outcome, the
   * characters pending afterwards, and whether the source was asked for a
   * character it did not have (which sets `closed`).
   */
  datatype Step = Step(outcome: Outcome, rest: seq<CharCode>, exhausted: bool)

  /** The index just past the run of parameter bytes that starts at `i`. */
  function ScanParameters(s: seq<CharCode>, i: nat): (j: nat)
    requires i <= |s|
    ensures i <= j <= |s|
    ensures forall k :: i <= k < j ==> IsParameterByte(s[k])
    ensures j < |s| ==> !IsParameterByte(s[j])
    decreases |s| - i
  {
    if i < |s| && IsParameterByte(s[i]) then ScanParameters(s, i + 1) else i
  }

  /** The index just past the run of intermediate bytes that starts at `i`. */
  function ScanIntermediates(s: seq<CharCode>, i: nat): (j: nat)
    requires i <= |s|
    ensures i <= j <= |s|
    ensures forall k :: i <= k < j ==> IsIntermediateByte(s[k])
    ensures j < |s| ==> !IsIntermediateByte(s[j])
    decreases |s| - i
  {
    if i < |s| && IsIntermediateByte(s[i]) then ScanIntermediates(s, i + 1) else i
  }

  /** One call of `next()` on the pending characters `input`. */
  function Read(input: seq<CharCode>): (st: Step)
    ensures st.outcome == NoSuchElement <==> input == []
    ensures input == [] ==> st.rest == [] && st.exhausted
    ensures input != [] ==> |st.rest| < |input| && st.rest == input[|input| - |st.rest|..]
  {
    if input == [] then Step(NoSuchElement, [], true)
    else
      match C0Find(input[0])
      case None => Step(Emit(Literal(input[0])), input[1..], false)
      case Some(c0) =>
        if c0 != ESC_ then Step(Emit(C0(c0)), input[1..], false)
        else if |input| == 1 then Step(Emit(C0(c0)), [], true)
        else
          match C1Find(input[1])
          case None => Step(Emit(Literal(ESC)), input[1..], false)
          case Some(c1) =>
            if c1 != CSI then Step(Emit(C1(c1)), input[2..], false)
            else ReadControlSequence(input)
  }

  /** The rest of `next()` once ESC and a CSI introducer have been read. */
  function ReadControlSequence(input: seq<CharCode>): (st: Step)
    requires |input| >= 2
    ensures st.outcome != NoSuchElement
    ensures |st.rest| < |input| && st.rest == input[|input| - |st.rest|..]
  {
    var p := ScanParameters(input, 2);
    if p == |input| then Step(Emit(Literal(ESC)), input[1..], true)
    else
      var q := ScanIntermediates(input, p);
      if q == |input| then Step(Emit(Literal(ESC)), input[1..], true)
      else ReadFinalByte(input, p, q)
  }

  /** The lookup once parameters `input[2..p]`, intermediates `input[p..q]` and the final byte `input[q]` are known. */
  function ReadFinalByte(input: seq<CharCode>, p: nat, q: nat): (st: Step)
    requires 2 <= p <= q < |input|
    ensures st.outcome != NoSuchElement && !st.exhausted
    ensures |st.rest| < |input| && st.rest == input[|input| - |st.rest|..]
  {
    match CSFind(input[q], input[p..q])
    case Found(f) => Step(Emit(Sequence(ControlSequence(f, input[2..p], input[p..q]))), input[q + 1..], false)
    case NotFound => Step(Emit(Literal(ESC)), input[1..], false)
    case TooManyIntermediates => Step(IllegalArgument, input[q + 1..], false)
  }

  // ---------------------------------------------------------------- properties of one call

  /** A first character other than ESC is consumed alone: a C0 function below 0x20, else itself. */
  lemma ReadSingle(input: seq<CharCode>)
    requires input != [] && input[0] != ESC
    ensures Read(input) == Step(
      Emit(if input[0] < 0x20 then C0(C0Entries[input[0]]) else Literal(input[0])), input[1..], false)
  {
  }

  /** ESC at the end of the input is the C0 function ESC; the source is then exhausted. */
  lemma ReadEscAtEnd()
    ensures Read([ESC]) == Step(Emit(C0(ESC_)), [], true)
  {
  }

  /** ESC before a character that names no C1 function is a literal ESC; that character starts the next token. */
  lemma ReadEscLiteral(input: seq<CharCode>)
    requires |input| >= 2 && input[0] == ESC && C1Find(input[1]).None?
    ensures Read(input) == Step(Emit(Literal(ESC)), input[1..], false)
    ensures input[1] != ESC ==> Read(input[1..]).outcome != Emit(Literal(ESC))
  {
  }

  /**
   * A recognised control sequence: the parameter bytes are the longest run
   * in 0x30..0x3F after CSI, the intermediate bytes the longest run in
   * 0x20..0x25 after them, then one final byte.
   */
  lemma ReadRecognised(input: seq<CharCode>, p: nat, q: nat)
    requires |input| >= 2 && input[0] == ESC && input[1] == LEFT_BRACKET
    requires 2 <= p <= q < |input|
    requires forall k :: 2 <= k < p ==> IsParameterByte(input[k])
    requires forall k :: p <= k < q ==> IsIntermediateByte(input[k])
    requires !IsParameterByte(input[p]) && !IsIntermediateByte(input[q])
    requires CSFind(input[q], input[p..q]).Found?
    ensures var st := Read(input);
      && st.outcome.Emit? && st.outcome.token.Sequence?
      && st.outcome.token.sequence.parameterBytes == input[2..p]
      && st.outcome.token.sequence.intermediateBytes == input[p..q]
      && st.outcome.token.sequence.controlFunction.Final() == input[q]
      && st.rest == input[q + 1..] && !st.exhausted
  {
    assert C1Find(input[1]) == Some(CSI);
    assert ScanParameters(input, 2) == p;
    assert ScanIntermediates(input, p) == q;
  }

  /**
   * Fallback: a control sequence cut off by the end of the input, or with a
   * final byte and intermediates that name no function, yields a literal
   * ESC, and every character read after the ESC is pending again, in order.
   */
  lemma ReadFallback(input: seq<CharCode>)
    requires |input| >= 2 && input[0] == ESC && C1Find(input[1]) == Some(CSI)
    ensures var p := ScanParameters(input, 2);
      var q := if p < |input| then ScanIntermediates(input, p) else p;
      (q == |input| || CSFind(input[q], input[p..q]).NotFound?) ==>
        Read(input) == Step(Emit(Literal(ESC)), input[1..], q == |input|)
  {
  }

  /** Two or more intermediates before a final byte in 0x40..0x6F make `next()` throw. */
  lemma ReadThrows(input: seq<CharCode>, p: nat, q: nat)
    requires |input| >= 2 && input[0] == ESC && input[1] == LEFT_BRACKET
    requires 2 <= p <= q < |input|
    requires forall k :: 2 <= k < p ==> IsParameterByte(input[k])
    requires forall k :: p <= k < q ==> IsIntermediateByte(input[k])
    requires !IsParameterByte(input[p]) && !IsIntermediateByte(input[q])
    ensures Read(input).outcome == IllegalArgument <==> 0x40 <= input[q] <= 0x6F && q - p >= 2
  {
    assert C1Find(input[1]) == Some(CSI);
    assert ScanParameters(input, 2) == p;
    assert ScanIntermediates(input, p) == q;
  }

  /** C1 and CSI introducers are in their 7-bit form at the head of `s`. */
  predicate SevenBitHead(s: seq<CharCode>)
  {
    |s| >= 2 && s[0] == ESC && C1Find(s[1]).Some? ==> s[1] < 0x80
  }

  /** ... and everywhere in `s`. */
  predicate SevenBit(s: seq<CharCode>)
  {
    forall i :: 0 <= i < |s| ==> SevenBitHead(s[i..])
  }

  /**
   * Losslessness of one call: the emitted token spells exactly the
   * characters it consumed, so rendering it in front of what is pending
   * afterwards gives back what was pending before.
   */
  lemma ReadLossless(input: seq<CharCode>)
    requires SevenBitHead(input)
    ensures var st := Read(input); st.outcome.Emit? ==> st.outcome.token.Str() + st.rest == input
  {
    if input == [] {
    } else if input[0] != ESC || |input| == 1 {
      SingleLossless(input);
    } else if C1Find(input[1]).None? {
      EscLiteralLossless(input);
    } else if C1Find(input[1]) != Some(CSI) {
      C1Lossless(input);
    } else {
      assert input[1] == LEFT_BRACKET;
      ControlSequenceLossless(input);
    }
  }

  /** `ReadLossless` for a character read alone. */
  lemma SingleLossless(input: seq<CharCode>)
    requires input != [] && (input[0] != ESC || |input| == 1)
    ensures var st := Read(input); st.outcome.Emit? && st.outcome.token.Str() + st.rest == input
  {
    assert input == [input[0]] + input[1..];
  }

  /** `ReadLossless` for ESC before a character that names no C1 function. */
  lemma EscLiteralLossless(input: seq<CharCode>)
    requires |input| >= 2 && input[0] == ESC && C1Find(input[1]).None?
    ensures var st := Read(input); st.outcome.Emit? && st.outcome.token.Str() + st.rest == input
  {
    assert input == [input[0]] + input[1..];
  }

  /** `ReadLossless` for a C1 function other than CSI, in its 7-bit form. */
  lemma C1Lossless(input: seq<CharCode>)
    requires |input| >= 2 && input[0] == ESC && C1Find(input[1]).Some? && C1Find(input[1]) != Some(CSI)
    requires input[1] < 0x80
    ensures var st := Read(input); st.outcome.Emit? && st.outcome.token.Str() + st.rest == input
  {
    assert input == [input[0], input[1]] + input[2..];
  }

  lemma ControlSequenceLossless(input: seq<CharCode>)
    requires |input| >= 2 && input[0] == ESC && input[1] == LEFT_BRACKET
    ensures var st := ReadControlSequence(input); st.outcome.Emit? ==> st.outcome.token.Str() + st.rest == input
  {
    var p := ScanParameters(input, 2);
    if p == |input| {
      assert input == [input[0]] + input[1..];
    } else {
      var q := ScanIntermediates(input, p);
      if q == |input| {
        assert input == [input[0]] + input[1..];
      } else {
        match CSFind(input[q], input[p..q])
        case Found(f) =>
          var cs := ControlSequence(f, input[2..p], input[p..q]);
          CodesStrIdentity(input[2..p]);
          CodesStrIdentity(input[p..q]);
          assert f.Str() == input[p..q] + [input[q]];
          assert cs.Str() == [ESC, LEFT_BRACKET] + input[2..p] + (input[p..q] + [input[q]]);
          Decompose(input, p, q);
        case NotFound =>
          assert input == [input[0]] + input[1..];
        case TooManyIntermediates =>
      }
    }
  }

  lemma Decompose(input: seq<CharCode>, p: nat, q: nat)
    requires |input| >= 2 && 2 <= p <= q < |input|
    ensures [input[0], input[1]] + input[2..p] + (input[p..q] + [input[q]]) + input[q + 1..] == input
  {
    assert input[p..q] + [input[q]] == input[p..q + 1];
    assert input[2..p] + input[p..q + 1] == input[2..q + 1];
    assert [input[0], input[1]] + input[2..q + 1] == input[..q + 1];
  }

  /** A control sequence cut off by the end of the input leaves everything after the ESC, which holds no ESC. */
  lemma CutOff(input: seq<CharCode>)
    requires |input| >= 2 && input[1] != ESC
    requires ScanParameters(input, 2) == |input| || ScanIntermediates(input, ScanParameters(input, 2)) == |input|
    ensures ReadControlSequence(input) == Step(Emit(Literal(ESC)), input[1..], true)
    ensures EscOnlyLast(input[1..])
  {
    var p := ScanParameters(input, 2);
    forall i | 1 <= i < |input| ensures input[i] != ESC {
      if 2 <= i < p {
        assert IsParameterByte(input[i]);
      } else if p <= i {
        assert IsIntermediateByte(input[i]);
      }
    }
  }

  /** The characters after ESC are the introducer, then the parameter bytes, then the rest. */
  lemma SplitAfterIntroducer(input: seq<CharCode>, p: nat, parameters: seq<CharCode>, rest: seq<CharCode>)
    requires 2 <= p <= |input| && parameters == input[2..p] && rest == input[p..|input|]
    ensures input[1..] == [input[1]] + parameters + rest
  {
    assert input[1..] == [input[1]] + input[2..p] + input[p..];
  }

  /** When neither run reaches the end, a control sequence is decided by its final byte. */
  lemma FinalByteFollows(input: seq<CharCode>)
    requires |input| >= 2 && ScanParameters(input, 2) < |input|
    requires ScanIntermediates(input, ScanParameters(input, 2)) < |input|
    ensures ReadControlSequence(input) == ReadFinalByte(input, ScanParameters(input, 2), ScanIntermediates(input, ScanParameters(input, 2)))
  {
  }

  /** The introducer, parameter and intermediate bytes of a sequence hold no ESC. */
  lemma EscFreeSequence(input: seq<CharCode>, p: nat, q: nat)
    requires 2 <= p <= q < |input| && input[1] != ESC
    requires forall k :: 2 <= k < p ==> IsParameterByte(input[k])
    requires forall k :: p <= k < q ==> IsIntermediateByte(input[k])
    ensures EscOnlyLast([input[1]] + input[2..p] + input[p..q] + [input[q]])
  {
    var b := [input[1]] + input[2..p] + input[p..q] + [input[q]];
    forall i | 0 <= i < |b| - 1 ensures b[i] != ESC {
      if 1 <= i < p - 1 {
        assert b[i] == input[i + 1];
      } else if p - 1 <= i {
        assert b[i] == input[i + 1];
      }
    }
  }

  /** What an unknown control sequence leaves pending: everything after the ESC. */
  lemma PushedBack(input: seq<CharCode>, p: nat, q: nat)
    requires |input| >= 2 && 2 <= p <= q < |input|
    ensures [input[1]] + input[2..p] + input[p..q] + [input[q]] + input[q + 1..] == input[1..]
  {
    assert input[p..q] + [input[q]] == input[p..q + 1];
    assert input[2..p] + input[p..q + 1] == input[2..q + 1];
    assert [input[1]] + input[2..q + 1] + input[q + 1..] == input[1..];
  }

  // ---------------------------------------------------------------- reading everything

  /** The renderings of a list of tokens. */
  function Renderings(tokens: seq<Token>): (r: seq<seq<CharCode>>)
    ensures |r| == |tokens| && forall i :: 0 <= i < |tokens| ==> r[i] == tokens[i].Str()
  {
    seq(|tokens|, i requires 0 <= i < |tokens| => tokens[i].Str())
  }

  /** The rendering of a list of tokens, one after the other. */
  function Flatten(tokens: seq<Token>): seq<CharCode>
  {
    Concat(Renderings(tokens))
  }

  /** Calling `next()` until it throws: the tokens returned and the exception that ended it. */
  function ReadAll(input: seq<CharCode>): (r: (seq<Token>, Outcome))
    ensures !r.1.Emit?
    decreases |input|
  {
    var st := Read(input);
    if !st.outcome.Emit? then ([], st.outcome)
    else
      var more := ReadAll(st.rest);
      ([st.outcome.token] + more.0, more.1)
  }

  lemma FlattenCons(t: Token, ts: seq<Token>)
    ensures Flatten([t] + ts) == t.Str() + Flatten(ts)
  {
    assert Renderings([t] + ts) == [t.Str()] + Renderings(ts);
    ConcatCons(t.Str(), Renderings(ts));
  }

  lemma FlattenSnoc(ts: seq<Token>, t: Token)
    ensures Flatten(ts + [t]) == Flatten(ts) + t.Str()
  {
    var r := Renderings(ts + [t]);
    assert r[..|r| - 1] == Renderings(ts);
  }

  lemma SevenBitSuffix(s: seq<CharCode>, k: nat)
    requires SevenBit(s) && k <= |s|
    ensures SevenBit(s[k..])
  {
    forall i | 0 <= i < |s[k..]| ensures SevenBitHead(s[k..][i..]) {
      assert s[k..][i..] == s[k + i..];
    }
  }

  /**
   * Losslessness of a whole read: if the input uses 7-bit introducers and
   * the reader stops only at the end of its input (no two-intermediate
   * exception), the tokens spell the input exactly.
   */
  lemma {:induction false} ReadAllLossless(input: seq<CharCode>)
    requires SevenBit(input)
    ensures ReadAll(input).1 == NoSuchElement ==> Flatten(ReadAll(input).0) == input
    decreases |input|
  {
    var st := Read(input);
    if st.outcome.Emit? {
      assert SevenBitHead(input[0..]);
      assert input[0..] == input;
      ReadLossless(input);
      SevenBitSuffix(input, |input| - |st.rest|);
      ReadAllLossless(st.rest);
      FlattenCons(st.outcome.token, ReadAll(st.rest).0);
    }
  }

  // ---------------------------------------------------------------- the scenarios of the reader's tests

  lemma ReadAllLiteral(s: seq<CharCode>)
    requires s != [] && s[0] >= 0x20
    ensures ReadAll(s) == ([Literal(s[0])] + ReadAll(s[1..]).0, ReadAll(s[1..]).1)
  {
    assert Read(s) == Step(Emit(Literal(s[0])), s[1..], false);
  }

  /** "A" is the one-character string "A". */
  lemma ReadLetter()
    ensures Read([0x41]) == Step(Emit(Literal(0x41)), [], false)
  {
  }

  /** BEL is the C0 function BEL. */
  lemma ReadBell()
    ensures Read([0x07]) == Step(Emit(C0(BEL)), [], false)
  {
  }

  /** `ESC [31;42m` is SGR with the parameter bytes `31;42` (their values: `ParametersExample`). */
  lemma ReadSgr()
    ensures var st := Read([ESC, 0x5B, 0x33, 0x31, 0x3B, 0x34, 0x32, 0x6D]);
      st.outcome == Emit(Sequence(ControlSequence(Standard(SGR), [0x33, 0x31, 0x3B, 0x34, 0x32], [])))
  {
    var input: seq<CharCode> := [ESC, 0x5B, 0x33, 0x31, 0x3B, 0x34, 0x32, 0x6D];
    assert CSFind(0x6D, []) == Found(Standard(SGR));
    assert input[2..7] == [0x33, 0x31, 0x3B, 0x34, 0x32] && input[7..7] == [];
    ReadRecognised(input, 7, 7);
  }

  /** `ESC [99;99X` names ECH (final 0x58), so it is recognised, and renders as it was read. */
  lemma ReadEch()
    ensures var input: seq<CharCode> := [ESC, 0x5B, 0x39, 0x39, 0x3B, 0x39, 0x39, 0x58];
      var st := Read(input);
      && st.outcome.Emit? && st.outcome.token.Sequence?
      && st.outcome.token.sequence.controlFunction == Standard(StandardCSFunction(0x58, false))
      && st.outcome.token.Str() == input && st.rest == []
  {
    var input: seq<CharCode> := [ESC, 0x5B, 0x39, 0x39, 0x3B, 0x39, 0x39, 0x58];
    ReadRecognised(input, 7, 7);
    ReadLossless(input);
  }

  /** Each character as a literal token. */
  function Literals(s: seq<CharCode>): (ts: seq<Token>)
  {
    seq(|s|, k requires 0 <= k < |s| => Literal(s[k]))
  }

  /** Characters from 0x20 up are read back one literal each, and then the reader is at its end. */
  lemma {:induction false} ReadAllPrintable(s: seq<CharCode>)
    requires forall k :: 0 <= k < |s| ==> s[k] >= 0x20
    ensures ReadAll(s) == (Literals(s), NoSuchElement)
    decreases |s|
  {
    if s != [] {
      ReadAllLiteral(s);
      ReadAllPrintable(s[1..]);
      assert Literals(s) == [Literal(s[0])] + Literals(s[1..]);
    }
  }

  /** `ESC [31;` cut off: the escape is not followed by a final byte, so it comes back as a literal. */
  lemma ReadCutSequence(input: seq<CharCode>)
    requires input == [ESC, 0x5B, 0x33, 0x31, 0x3B]
    ensures Read(input) == Step(Emit(Literal(ESC)), input[1..], true)
  {
    assert ScanParameters(input, 2) == 5;
  }

  /** ... and the other four characters come back one by one: all five are literals, and then the reader is at its end. */
  lemma ReadTruncated(input: seq<CharCode>)
    requires input == [ESC, 0x5B, 0x33, 0x31, 0x3B]
    ensures ReadAll(input) == (Literals(input), NoSuchElement)
  {
    ReadCutSequence(input);
    ReadAllPrintable(input[1..]);
    assert Literals(input) == [Literal(ESC)] + Literals(input[1..]);
  }

  // ---------------------------------------------------------------- the reader

  /**
   * One token's worth of progress keeps the reader lossless: if the token
   * spells the characters it took from the pending ones, the tokens so far
   * plus the new buffer spell what has been read.
   */
  lemma LosslessStep(source: seq<CharCode>, emitted: seq<Token>, t: Token,
                     buffer: seq<CharCode>, pos: nat, buffer': seq<CharCode>, pos': nat)
    requires pos <= pos' <= |source|
    requires Flatten(emitted) + buffer == source[..pos]
    requires t.Str() + (buffer' + source[pos'..]) == buffer + source[pos..]
    ensures Flatten(emitted + [t]) + buffer' == source[..pos']
  {
    FlattenSnoc(emitted, t);
    Regroup(Flatten(emitted), t.Str(), buffer, buffer', source, pos, pos');
  }

  lemma Regroup(done: seq<CharCode>, taken: seq<CharCode>, buffer: seq<CharCode>, buffer': seq<CharCode>,
                source: seq<CharCode>, pos: nat, pos': nat)
    requires pos <= pos' <= |source|
    requires done + buffer == source[..pos]
    requires taken + (buffer' + source[pos'..]) == buffer + source[pos..]
    ensures done + taken + buffer' == source[..pos']
  {
    calc {
      done + taken + buffer' + source[pos'..];
      done + (taken + (buffer' + source[pos'..]));
      done + (buffer + source[pos..]);
      source[..pos] + source[pos..];
      { assert source[..pos] + source[pos..] == source; }
      source[..pos'] + source[pos'..];
    }
    CancelSuffix(done + taken + buffer', source[..pos'], source[pos'..]);
  }

  /** An ESC can be pending in the buffer only as its last element. */
  predicate EscOnlyLast(buffer: seq<CharCode>)
  {
    forall i :: 0 <= i < |buffer| - 1 ==> buffer[i] != ESC
  }

  lemma CancelSuffix(a: seq<CharCode>, b: seq<CharCode>, c: seq<CharCode>)
    requires a + c == b + c
    ensures a == b
  {
    assert |a| == |b|;
    forall i | 0 <= i < |a| ensures a[i] == b[i] {
      assert (a + c)[i] == (b + c)[i];
    }
  }

  class Ecma48Reader {
    /** What the underlying `Reader` will deliver, in order. */
    const source: seq<CharCode>
    /** How much of `source` has been read. */
    var pos: nat
    /** Set once the source has reported its end. */
    var closed: bool
    /** The pushback `ArrayDeque`. */
    var buffer: seq<CharCode>
    /** The tokens returned so far. */
    ghost var Emitted: seq<Token>

    ghost predicate Valid()
      reads this
    {
      pos <= |source| && (closed ==> pos == |source|) && EscOnlyLast(buffer)
    }

    /** The characters still to be tokenized: the buffer, then the unread source. */
    ghost function Pending(): seq<CharCode>
      reads this
      requires pos <= |source|
    {
      buffer + source[pos..]
    }

    /** The tokens returned so far, followed by the buffer, spell everything read from the source. */
    ghost predicate Lossless()
      reads this
      requires pos <= |source|
    {
      Flatten(Emitted) + buffer == source[..pos]
    }

    constructor(source: seq<CharCode>)
      ensures Valid() && Lossless()
      ensures this.source == source && pos == 0 && !closed && buffer == [] && Emitted == []
    {
      this.source := source;
      pos := 0;
      closed := false;
      buffer := [];
      Emitted := [];
    }

    /** `readNext()`: -1 once closed; otherwise the next character, or -1 (closing) at the end. */
    method ReadNext() returns (c: int)
      requires Valid()
      modifies this`pos, this`closed
      ensures Valid()
      ensures old(closed) ==> c == -1 && pos == old(pos) && closed
      ensures !old(closed) && old(pos) < |source| ==> c == source[old(pos)] && pos == old(pos) + 1 && !closed
      ensures !old(closed) && old(pos) == |source| ==> c == -1 && pos == old(pos) && closed
    {
      if closed {
        c := -1;
      } else if pos < |source| {
        c := source[pos];
        pos := pos + 1;
      } else {
        c := -1;
        closed := true;
      }
    }

    /** `nextByte()`: the head of the buffer, else the next character of the source. */
    method NextByte() returns (b: Option<CharCode>)
      requires Valid()
      modifies this`pos, this`closed, this`buffer
      ensures Valid()
      ensures b.None? <==> old(Pending()) == []
      ensures b.Some? ==> b.value == old(Pending())[0] && Pending() == old(Pending())[1..] && closed == old(closed)
      ensures b.None? ==> closed && buffer == [] && pos == |source|
      ensures old(buffer) != [] ==> buffer == old(buffer)[1..] && pos == old(pos)
      ensures old(buffer) == [] ==> buffer == [] && (b.Some? ==> pos == old(pos) + 1)
    {
      if buffer != [] {
        b := Some(buffer[0]);
        buffer := buffer[1..];
      } else {
        var c := ReadNext();
        b := if c >= 0 then Some(c) else None;
      }
    }

    /** `hasNext()` */
    function HasNext(): (b: bool)
      reads this
      ensures !b ==> closed && buffer == []
      ensures Valid() && !b ==> Pending() == []
    {
      buffer != [] || !closed
    }

    /**
     * `next()`. Unless it throws `IllegalArgumentException`, it keeps the
     * tokens returned so far plus the buffer equal to what was read, as long
     * as C1 and CSI introducers come in their 7-bit form.
     */
    method Next() returns (r: Outcome)
      requires Valid()
      modifies this
      ensures Valid() && pos >= old(pos)
      ensures var st := Read(old(Pending()));
        r == st.outcome && Pending() == st.rest && closed == (old(closed) || st.exhausted)
      ensures Emitted == if r.Emit? then old(Emitted) + [r.token] else old(Emitted)
      ensures old(Lossless()) && SevenBitHead(old(Pending())) && !r.IllegalArgument? ==> Lossless()
    {
      ghost var before := Pending();
      r := ReadToken();
      if r.Emit? {
        Emitted := Emitted + [r.token];
        if old(Lossless()) && SevenBitHead(before) {
          ReadLossless(before);
          LosslessStep(source, old(Emitted), r.token, old(buffer), old(pos), buffer, pos);
        }
      }
    }

    /** The body of `next()`: one token, or one of the exceptions, read from the pending characters. */
    method ReadToken() returns (r: Outcome)
      requires Valid()
      modifies this`pos, this`closed, this`buffer
      ensures Valid() && pos >= old(pos)
      ensures var st := Read(old(Pending()));
        r == st.outcome && Pending() == st.rest && closed == (old(closed) || st.exhausted)
    {
      ghost var input := Pending();
      var first := NextByte();
      if first.None? {
        r := NoSuchElement;
        return;
      }
      var firstByte := first.value;
      var c0 := C0Find(firstByte);
      if c0.None? {
        r := Emit(Literal(firstByte));
        return;
      }
      if c0.value != ESC_ {
        r := Emit(C0(c0.value));
        return;
      }
      assert buffer == [];
      var second := NextByte();
      if second.None? {
        r := Emit(C0(c0.value));
        return;
      }
      var secondByte := second.value;
      var c1 := C1Find(secondByte);
      if c1.None? {
        buffer := buffer + [secondByte];
        r := Emit(Literal(firstByte));
        return;
      }
      if c1.value != CSI {
        r := Emit(C1(c1.value));
        return;
      }
      r := ReadSequenceTail(input, secondByte);
    }

    /**
     * The part of `next()` after ESC and a CSI introducer: parameter bytes,
     * intermediate bytes, the final byte and the lookup, pushing ESC's
     * successors back when the sequence is cut off or unknown.
     */
    method ReadSequenceTail(ghost input: seq<CharCode>, secondByte: CharCode) returns (r: Outcome)
      requires Valid() && buffer == [] && |input| >= 2 && input[1] == secondByte && secondByte != ESC
      requires Pending() == input[2..]
      modifies this`pos, this`closed, this`buffer
      ensures Valid() && pos >= old(pos)
      ensures var st := ReadControlSequence(input);
        r == st.outcome && Pending() == st.rest && closed == (old(closed) || st.exhausted)
    {
      var next := NextByte();
      if next.None? {
        CutOff(input);
        Unread([secondByte]);
        r := Emit(Literal(ESC));
        return;
      }
      var parameters, afterParameters := ReadParameterBytes(input, next.value);
      ghost var p := ScanParameters(input, 2);
      if afterParameters.None? {
        CutOff(input);
        assert input[1..] == [secondByte] + parameters;
        Unread([secondByte] + parameters);
        r := Emit(Literal(ESC));
        return;
      }
      r := ReadAfterParameters(input, secondByte, parameters, afterParameters.value);
    }

    /** The intermediate bytes after the parameter bytes `input[2..p]`, then the final byte. */
    method ReadAfterParameters(ghost input: seq<CharCode>, secondByte: CharCode, parameters: seq<CharCode>, first: CharCode)
      returns (r: Outcome)
      requires Valid() && buffer == [] && |input| >= 2 && input[1] == secondByte && secondByte != ESC
      requires ScanParameters(input, 2) < |input| && parameters == input[2..ScanParameters(input, 2)]
      requires first == input[ScanParameters(input, 2)] && Pending() == input[ScanParameters(input, 2) + 1..]
      modifies this`pos, this`closed, this`buffer
      ensures Valid() && pos >= old(pos)
      ensures var st := ReadControlSequence(input);
        r == st.outcome && Pending() == st.rest && closed == (old(closed) || st.exhausted)
    {
      ghost var p := ScanParameters(input, 2);
      assert 2 + |parameters| == p;
      var intermediate, afterIntermediates := ReadIntermediateBytes(input, 2 + |parameters|, first);
      ghost var q := ScanIntermediates(input, p);
      assert intermediate == input[p..q];
      if afterIntermediates.None? {
        r := PushBackCut(input, p, secondByte, parameters, intermediate);
        return;
      }
      FinalByteFollows(input);
      r := ReadFinal(input, p, q, secondByte, parameters, intermediate, afterIntermediates.value);
    }

    /** The source ended inside the intermediate bytes: ESC comes back as a literal, its successors are pushed back. */
    method PushBackCut(ghost input: seq<CharCode>, ghost p: nat, secondByte: CharCode,
                       parameters: seq<CharCode>, intermediate: seq<CharCode>) returns (r: Outcome)
      requires Valid() && buffer == [] && |input| >= 2 && input[1] == secondByte && secondByte != ESC
      requires p == ScanParameters(input, 2) && p < |input| && parameters == input[2..p]
      requires ScanIntermediates(input, p) == |input| && intermediate == input[p..|input|]
      requires closed && Pending() == []
      modifies this`buffer
      ensures Valid() && closed
      ensures var st := ReadControlSequence(input); r == st.outcome && Pending() == st.rest && st.exhausted
    {
      CutOff(input);
      SplitAfterIntroducer(input, p, parameters, intermediate);
      Unread([secondByte] + parameters + intermediate);
      r := Emit(Literal(ESC));
    }

    /** Pushes `chars` back into the empty buffer. */
    method Unread(chars: seq<CharCode>)
      requires Valid() && buffer == [] && EscOnlyLast(chars)
      modifies this`buffer
      ensures Valid() && buffer == chars
    {
      buffer := chars;
    }

    /** The lookup of the final byte, and the pushback when it names no function. */
    method ReadFinal(ghost input: seq<CharCode>, ghost p: nat, ghost q: nat, secondByte: CharCode,
                     parameters: seq<CharCode>, intermediate: seq<CharCode>, finalByte: CharCode)
      returns (r: Outcome)
      requires Valid() && buffer == [] && 2 <= p <= q < |input| && input[1] == secondByte && secondByte != ESC
      requires parameters == input[2..p] && intermediate == input[p..q] && finalByte == input[q]
      requires forall k :: 2 <= k < p ==> IsParameterByte(input[k])
      requires forall k :: p <= k < q ==> IsIntermediateByte(input[k])
      requires Pending() == input[q + 1..]
      modifies this`buffer
      ensures Valid()
      ensures var st := ReadFinalByte(input, p, q); r == st.outcome && Pending() == st.rest
    {
      var lookup := CSFind(finalByte, intermediate);
      if lookup.NotFound? {
        assert source[pos..] == input[q + 1..];
        EscFreeSequence(input, p, q);
        Unread([secondByte] + parameters + intermediate + [finalByte]);
        r := Emit(Literal(ESC));
        PushedBack(input, p, q);
        return;
      }
      if lookup.TooManyIntermediates? {
        r := IllegalArgument;
        return;
      }
      r := Emit(Sequence(ControlSequence(lookup.found, parameters, intermediate)));
    }

    /**
     * The loop over parameter bytes: `first` is the character after CSI.
     * Returns the run and the character that ended it, or `None` when the
     * source ended inside the run.
     */
    method ReadParameterBytes(ghost input: seq<CharCode>, first: CharCode)
      returns (parameters: seq<CharCode>, after: Option<CharCode>)
      requires Valid() && buffer == [] && |input| >= 3 && input[2] == first
      requires Pending() == input[3..]
      modifies this`pos, this`closed, this`buffer
      ensures Valid() && buffer == [] && pos >= old(pos)
      ensures var p := ScanParameters(input, 2);
        && parameters == input[2..p]
        && (forall k :: 0 <= k < |parameters| ==> IsParameterByte(parameters[k]))
        && (after.None? <==> p == |input|)
        && (after.Some? ==> after.value == input[p] && Pending() == input[p + 1..] && closed == old(closed))
        && (after.None? ==> closed && Pending() == [])
    {
      var tmp := first;
      parameters := [];
      while IsParameterByte(tmp)
        invariant Valid() && buffer == [] && pos >= old(pos)
        invariant closed == old(closed)
        invariant |input| >= 3 + |parameters|
        invariant parameters == input[2..2 + |parameters|]
        invariant forall k :: 0 <= k < |parameters| ==> IsParameterByte(parameters[k])
        invariant tmp == input[2 + |parameters|]
        invariant Pending() == input[3 + |parameters|..]
        decreases |source| - pos
      {
        parameters := parameters + [tmp];
        var next := NextByte();
        if next.None? {
          after := None;
          assert parameters == input[2..|input|];
          RunIsScan(input, 2, parameters, true);
          return;
        }
        tmp := next.value;
      }
      after := Some(tmp);
      RunIsScan(input, 2, parameters, true);
    }

    /** The loop over intermediate bytes, which start at `input[p]`, the character `first`. */
    method ReadIntermediateBytes(ghost input: seq<CharCode>, p: nat, first: CharCode)
      returns (intermediate: seq<CharCode>, after: Option<CharCode>)
      requires Valid() && buffer == [] && p < |input| && input[p] == first
      requires Pending() == input[p + 1..]
      modifies this`pos, this`closed, this`buffer
      ensures Valid() && buffer == [] && pos >= old(pos)
      ensures var q := ScanIntermediates(input, p);
        && intermediate == input[p..q]
        && (forall k :: 0 <= k < |intermediate| ==> IsIntermediateByte(intermediate[k]))
        && (after.None? <==> q == |input|)
        && (after.Some? ==> after.value == input[q] && Pending() == input[q + 1..] && closed == old(closed))
        && (after.None? ==> closed && Pending() == [])
    {
      var tmp := first;
      intermediate := [];
      while IsIntermediateByte(tmp)
        invariant Valid() && buffer == [] && pos >= old(pos)
        invariant closed == old(closed)
        invariant |input| >= p + 1 + |intermediate|
        invariant intermediate == input[p..p + |intermediate|]
        invariant forall k :: 0 <= k < |intermediate| ==> IsIntermediateByte(intermediate[k])
        invariant tmp == input[p + |intermediate|]
        invariant Pending() == input[p + 1 + |intermediate|..]
        decreases |source| - pos
      {
        intermediate := intermediate + [tmp];
        var next := NextByte();
        if next.None? {
          after := None;
          assert intermediate == input[p..|input|];
          RunIsScan(input, p, intermediate, false);
          return;
        }
        tmp := next.value;
      }
      after := Some(tmp);
      RunIsScan(input, p, intermediate, false);
    }
  }

  /**
   * `next()` throws `NoSuchElementException` exactly when the buffer is
   * empty and the source has no more characters; `hasNext()` rules that
   * out once the end has been seen, but still answers `true` right before
   * the source reports its end.
   */
  lemma HasNextAndFailure(rd: Ecma48Reader)
    requires rd.Valid()
    ensures Read(rd.Pending()).outcome == NoSuchElement <==> rd.buffer == [] && rd.pos == |rd.source|
    ensures !rd.HasNext() ==> Read(rd.Pending()).outcome == NoSuchElement
    ensures rd.buffer == [] && rd.pos == |rd.source| && !rd.closed ==>
      rd.HasNext() && Read(rd.Pending()).outcome == NoSuchElement
  {
  }

  /** A maximal run of parameter (or intermediate) bytes starting at `i` is what the scan finds. */
  lemma RunIsScan(s: seq<CharCode>, i: nat, run: seq<CharCode>, parameters: bool)
    requires i + |run| <= |s| && run == s[i..i + |run|]
    requires parameters ==> forall k :: 0 <= k < |run| ==> IsParameterByte(run[k])
    requires !parameters ==> forall k :: 0 <= k < |run| ==> IsIntermediateByte(run[k])
    requires i + |run| < |s| && parameters ==> !IsParameterByte(s[i + |run|])
    requires i + |run| < |s| && !parameters ==> !IsIntermediateByte(s[i + |run|])
    ensures parameters ==> ScanParameters(s, i) == i + |run|
    ensures !parameters ==> ScanIntermediates(s, i) == i + |run|
  {
    var j := i + |run|;
    forall k | i <= k < j ensures parameters ==> IsParameterByte(s[k]) ensures !parameters ==> IsIntermediateByte(s[k]) {
      assert s[k] == run[k - i];
    }
  }
}
