/**
 * The SELECT GRAPHIC RENDITION table of `GraphicsRendition`: the 108
 * instruction slots with their attributes, decoders and encoders, the
 * `java.awt.Color` values they carry, the 16 `SimpleColor`s and the
 * 256-colour palette, and the extended-colour decoder and encoder used by
 * codes 38, 48 and 58.
 */
module RenditionTable {
  import opened Wrappers

  // ---------------------------------------------------------------- colours

  /** Three colour components. */
  datatype Rgb = Rgb(red: int, green: int, blue: int)

  predicate InRange(component: int) { 0 <= component <= 255 }

  /** `java.awt.Color`: its constructor only admits components in 0..255 (alpha is always 255 here). */
  type Color = c: Rgb | InRange(c.red) && InRange(c.green) && InRange(c.blue) witness Rgb(0, 0, 0)

  /** `Color(r, g, b)`, or `None` where the constructor throws `IllegalArgumentException`. */
  function NewColor(r: int, g: int, b: int): (c: Option<Color>)
    ensures c.Some? <==> InRange(r) && InRange(g) && InRange(b)
    ensures c.Some? ==> c.value.red == r && c.value.green == g && c.value.blue == b
  {
    if InRange(r) && InRange(g) && InRange(b) then Some(Rgb(r, g, b)) else None
  }

  /** `SimpleColor`: the 16 named colours, with their fixed RGB values. */
  datatype SimpleColor =
    | BLACK | RED | GREEN | YELLOW | BLUE | MAGENTA | CYAN | WHITE
    | GRAY | RED_BRIGHT | GREEN_BRIGHT | YELLOW_BRIGHT | BLUE_BRIGHT | MAGENTA_BRIGHT | CYAN_BRIGHT | WHITE_BRIGHT
  {
    /** The `color` property. */
    function ToColor(): Color
    {
      match this
      case BLACK => Rgb(12, 12, 12)
      case RED => Rgb(197, 15, 31)
      case GREEN => Rgb(19, 161, 14)
      case YELLOW => Rgb(193, 156, 0)
      case BLUE => Rgb(0, 55, 218)
      case MAGENTA => Rgb(136, 23, 152)
      case CYAN => Rgb(58, 150, 221)
      case WHITE => Rgb(204, 204, 204)
      case GRAY => Rgb(118, 118, 118)
      case RED_BRIGHT => Rgb(231, 72, 86)
      case GREEN_BRIGHT => Rgb(22, 198, 12)
      case YELLOW_BRIGHT => Rgb(249, 241, 165)
      case BLUE_BRIGHT => Rgb(59, 120, 255)
      case MAGENTA_BRIGHT => Rgb(180, 0, 158)
      case CYAN_BRIGHT => Rgb(97, 214, 214)
      case WHITE_BRIGHT => Rgb(242, 242, 242)
    }
  }

  /** `SimpleColor.entries`, in declaration order. */
  const SimpleColors: seq<SimpleColor> := [
    BLACK, RED, GREEN, YELLOW, BLUE, MAGENTA, CYAN, WHITE,
    GRAY, RED_BRIGHT, GREEN_BRIGHT, YELLOW_BRIGHT, BLUE_BRIGHT, MAGENTA_BRIGHT, CYAN_BRIGHT, WHITE_BRIGHT]

  /** Entry `16 + i` of the palette: the 6x6x6 colour cube in steps of 51. */
  function CubeColor(i: int): Color
    requires 0 <= i < 216
  {
    Rgb(((i / 36) % 6) * 51, ((i / 6) % 6) * 51, (i % 6) * 51)
  }

  /** Entry `232 + i` of the palette: a gray ramp from 8 in steps of 10. */
  function GrayColor(i: int): Color
    requires 0 <= i < 24
  {
    Rgb(i * 10 + 8, i * 10 + 8, i * 10 + 8)
  }

  /** `ansi256Colors`: the simple colours, then the cube, then the grays. */
  function Ansi256Colors(): (palette: seq<Color>)
    ensures |palette| == 256
  {
    seq(16, i requires 0 <= i < 16 => SimpleColors[i].ToColor())
    + seq(216, i requires 0 <= i < 216 => CubeColor(i))
    + seq(24, i requires 0 <= i < 24 => GrayColor(i))
  }

  /** Every entry of the palette, by its index. */
  lemma PaletteEntry(n: int)
    requires 0 <= n < 256
    ensures n < 16 ==> Ansi256Colors()[n] == SimpleColors[n].ToColor()
    ensures 16 <= n < 232 ==>
      Ansi256Colors()[n] == Rgb((((n - 16) / 36) % 6) * 51, (((n - 16) / 6) % 6) * 51, ((n - 16) % 6) * 51)
    ensures 232 <= n ==> Ansi256Colors()[n] == Rgb((n - 232) * 10 + 8, (n - 232) * 10 + 8, (n - 232) * 10 + 8)
  {
    var a := seq(16, i requires 0 <= i < 16 => SimpleColors[i].ToColor());
    var b := seq(216, i requires 0 <= i < 216 => CubeColor(i));
    var c := seq(24, i requires 0 <= i < 24 => GrayColor(i));
    assert Ansi256Colors() == a + b + c;
    if n < 16 {
      assert (a + b + c)[n] == a[n];
    } else if n < 232 {
      assert (a + b + c)[n] == b[n - 16];
    } else {
      assert (a + b + c)[n] == c[n - 232];
    }
  }

  /** `coerceIn(lo..hi)` */
  function CoerceIn(v: int, lo: int, hi: int): (r: int)
    requires lo <= hi
    ensures lo <= r <= hi
    ensures lo <= v <= hi ==> r == v
    ensures v < lo ==> r == lo
    ensures v > hi ==> r == hi
  {
    if v < lo then lo else if v > hi then hi else v
  }

  // ---------------------------------------------------------------- attribute values

  datatype Intensity = NORMAL | BOLD | FAINT
  datatype Underline = NONE | SINGLE | DOUBLE
  datatype Script = NORMAL | SUPER | SUB
  datatype Blink = NONE | SLOW | FAST
  datatype Style = NORMAL | FRAMED | ENCIRCLED
  datatype Font = DEFAULT | ALT_1 | ALT_2 | ALT_3 | ALT_4 | ALT_5 | ALT_6 | ALT_7 | ALT_8 | ALT_9 | GOTHIC

  /** `Font.entries`, in declaration order. */
  const Fonts: seq<Font> := [DEFAULT, ALT_1, ALT_2, ALT_3, ALT_4, ALT_5, ALT_6, ALT_7, ALT_8, ALT_9, GOTHIC]

  /** The 16 `Attribute`s; each is a distinct object, so equality is identity. */
  datatype Attribute =
    | RESET | INTENSITY | ITALIC | UNDERLINE | BLINK | INVERT | CONCEIL | STRIKE | FONT
    | PROPORTIONAL_SPACING | STYLE | OVERLINE | SCRIPT | FOREGROUND | BACKGROUND | UNDERLINE_COLOR

  /** The `Any?` value stored next to an instruction: `null` or a value of the attribute's type. */
  datatype Value =
    | Null
    | OfIntensity(intensity: Intensity)
    | OfBool(flag: bool)
    | OfUnderline(underline: Underline)
    | OfBlink(blink: Blink)
    | OfFont(font: Font)
    | OfStyle(style: Style)
    | OfScript(script: Script)
    | OfColor(color: Color)

  // ---------------------------------------------------------------- instructions

  /** The `read` lambda of an instruction: a fixed value, or `parseColor()` on the remaining arguments. */
  datatype Decoder = Constant(value: Value) | ParseColor

  /** The `write` lambda of an instruction: the empty list, or `writeColor`. */
  datatype Encoder = NoArgs | WriteColor

  datatype Instruction = Instruction(attribute: Attribute, write: Encoder, read: Decoder)

  function Fixed(attribute: Attribute, value: Value): Instruction
  {
    Instruction(attribute, NoArgs, Constant(value))
  }

  function Extended(attribute: Attribute): Instruction
  {
    Instruction(attribute, WriteColor, ParseColor)
  }

  /** The number of slots in `Instruction.entries`. */
  const SLOT_COUNT := 108

  /** The `null` slots of `Instruction.entries`. */
  predicate IsEmptySlot(code: int)
  {
    code == 56 || code == 57 || 60 <= code <= 72 || 76 <= code <= 89 || code == 98 || code == 99
  }

  /**
   * `Instruction.entries[code]`: `None` for an empty slot, and also for an
   * index outside the list, where `List.get` throws.
   */
  function Entry(code: int): (e: Option<Instruction>)
    ensures e.Some? <==> 0 <= code < SLOT_COUNT && !IsEmptySlot(code)
  {
    if code < 0 || code >= SLOT_COUNT || IsEmptySlot(code) then None
    else if code < 30 then Some(StyleEntry(code))
    else if code < 40 then Some(ColorEntry(FOREGROUND, code - 30))
    else if code < 50 then Some(ColorEntry(BACKGROUND, code - 40))
    else if code < 56 then Some(StyleEntry(code))
    else if code == 58 then Some(Extended(UNDERLINE_COLOR))
    else if code == 59 then Some(Fixed(UNDERLINE_COLOR, Null))
    else if code == 73 then Some(Fixed(SCRIPT, OfScript(SUPER)))
    else if code == 74 then Some(Fixed(SCRIPT, OfScript(SUB)))
    else if code == 75 then Some(Fixed(SCRIPT, OfScript(Script.NORMAL)))
    else if code < 98 then Some(Fixed(FOREGROUND, OfColor(SimpleColors[code - 90 + 8].ToColor())))
    else Some(Fixed(BACKGROUND, OfColor(SimpleColors[code - 100 + 8].ToColor())))
  }

  /** Slots 0..29 and 50..55: reset, intensity, italic, underline, blink, invert, conceal, strike, fonts, spacing, style, overline. */
  function StyleEntry(code: int): Instruction
    requires 0 <= code < 30 || 50 <= code < 56
  {
    if 10 <= code <= 20 then Fixed(FONT, OfFont(Fonts[code - 10]))
    else match code
      case 0 => Fixed(RESET, Null)
      case 1 => Fixed(INTENSITY, OfIntensity(BOLD))
      case 2 => Fixed(INTENSITY, OfIntensity(FAINT))
      case 3 => Fixed(ITALIC, OfBool(true))
      case 4 => Fixed(UNDERLINE, OfUnderline(SINGLE))
      case 5 => Fixed(BLINK, OfBlink(SLOW))
      case 6 => Fixed(BLINK, OfBlink(FAST))
      case 7 => Fixed(INVERT, OfBool(true))
      case 8 => Fixed(CONCEIL, OfBool(true))
      case 9 => Fixed(STRIKE, OfBool(true))
      case 21 => Fixed(UNDERLINE, OfUnderline(DOUBLE))
      case 22 => Fixed(INTENSITY, OfIntensity(Intensity.NORMAL))
      case 23 => Fixed(ITALIC, OfBool(false))
      case 24 => Fixed(UNDERLINE, OfUnderline(Underline.NONE))
      case 25 => Fixed(BLINK, OfBlink(Blink.NONE))
      case 26 => Fixed(PROPORTIONAL_SPACING, OfBool(true))
      case 27 => Fixed(INVERT, OfBool(false))
      case 28 => Fixed(CONCEIL, OfBool(false))
      case 29 => Fixed(STRIKE, OfBool(false))
      case 50 => Fixed(PROPORTIONAL_SPACING, OfBool(false))
      case 51 => Fixed(STYLE, OfStyle(FRAMED))
      case 52 => Fixed(STYLE, OfStyle(ENCIRCLED))
      case 53 => Fixed(OVERLINE, OfBool(true))
      case 54 => Fixed(STYLE, OfStyle(Style.NORMAL))
      case _ => Fixed(OVERLINE, OfBool(false))
  }

  /** Slots 30..39 and 40..49: eight simple colours, the extended form, and the default (`null`). */
  function ColorEntry(attribute: Attribute, offset: int): Instruction
    requires 0 <= offset < 10
  {
    if offset < 8 then Fixed(attribute, OfColor(SimpleColors[offset].ToColor()))
    else if offset == 8 then Extended(attribute)
    else Fixed(attribute, Null)
  }

  /** A code whose slot holds an instruction; it stands for that instruction (its index in `entries`). */
  type InstructionCode = code: int | Entry(code).Some? witness 0

  /** The attribute of the instruction in slot `code`. */
  function AttributeOf(code: InstructionCode): Attribute
  {
    Entry(code).value.attribute
  }

  /** Table shape: only 38, 48 and 58 decode and encode colours; every other slot has a fixed value and no arguments. */
  lemma TableShape(code: InstructionCode)
    ensures 0 <= code < SLOT_COUNT
    ensures Entry(code).value.read.ParseColor? <==> code == 38 || code == 48 || code == 58
    ensures Entry(code).value.write.WriteColor? <==> code == 38 || code == 48 || code == 58
    ensures code == 38 ==> AttributeOf(code) == FOREGROUND
    ensures code == 48 ==> AttributeOf(code) == BACKGROUND
    ensures code == 58 ==> AttributeOf(code) == UNDERLINE_COLOR
  {
    assert Entry(code).Some?;
    if code < 30 || 50 <= code < 56 {
      assert Entry(code) == Some(StyleEntry(code));
    } else if code < 40 {
      assert Entry(code) == Some(ColorEntry(FOREGROUND, code - 30));
    } else if code < 50 {
      assert Entry(code) == Some(ColorEntry(BACKGROUND, code - 40));
    }
  }

  /** Only slot 0, `RESET`, has the attribute `RESET`. */
  lemma ResetSlot(code: InstructionCode)
    ensures AttributeOf(code) == RESET <==> code == 0
  {
  }

  /** The fonts: slots 10..19 are `DEFAULT`, `ALT_1`..`ALT_9`, and slot 20 is `GOTHIC`. */
  lemma FontSlots(code: int)
    requires 10 <= code <= 20
    ensures Entry(code) == Some(Fixed(FONT, OfFont(Fonts[code - 10])))
    ensures code == 20 ==> Fonts[code - 10] == GOTHIC
  {
  }

  // ---------------------------------------------------------------- instructions by identity

  /**
   * `Instruction.entries.indexOf(i)`: the first slot holding `i`, or -1.
   * Every slot holds a different instruction (their `read` lambdas are
   * distinct objects), so for a table instruction this is its own slot.
   */
  function IndexOfInstruction(i: Instruction): (r: int)
    ensures -1 <= r < SLOT_COUNT
    ensures r >= 0 ==> Entry(r) == Some(i)
    ensures r == -1 ==> forall c :: 0 <= c < SLOT_COUNT ==> Entry(c) != Some(i)
  {
    IndexFrom(i, 0)
  }

  /** The linear search of `indexOf` from slot `from` on. */
  function IndexFrom(i: Instruction, from: nat): (r: int)
    requires from <= SLOT_COUNT
    ensures -1 <= r < SLOT_COUNT
    ensures r >= 0 ==> from <= r && Entry(r) == Some(i) && forall c :: from <= c < r ==> Entry(c) != Some(i)
    ensures r == -1 ==> forall c :: from <= c < SLOT_COUNT ==> Entry(c) != Some(i)
    decreases SLOT_COUNT - from
  {
    if from == SLOT_COUNT then -1 else if Entry(from) == Some(i) then from else IndexFrom(i, from + 1)
  }

  /**
   * An instruction of the table. `Instruction`'s constructor is private,
   * so every instruction a rendition holds is one of the entries.
   */
  predicate InTable(i: Instruction)
  {
    IndexOfInstruction(i) >= 0
  }

  /** The instruction in slot `code`. */
  function InstructionAt(code: int): (i: Instruction)
    requires Entry(code).Some?
    ensures Entry(code) == Some(i)
  {
    Entry(code).value
  }

  /** `Instruction.RESET`. */
  const RESET_INSTRUCTION: Instruction := Fixed(RESET, Null)

  /** `Instruction.RESET` is in the table, and it is the only table instruction with the attribute `RESET`. */
  lemma ResetInstruction(i: Instruction)
    requires InTable(i)
    ensures InTable(RESET_INSTRUCTION) && Entry(0) == Some(RESET_INSTRUCTION)
    ensures i.attribute == RESET <==> i == RESET_INSTRUCTION
  {
    ResetSlot(IndexOfInstruction(i));
  }

  /** The position of a colour among the simple colours, or -1. */
  function SimpleIndex(c: Color): (k: int)
    ensures -1 <= k < 16
    ensures k >= 0 ==> SimpleColors[k].ToColor() == c
  {
    if c == Rgb(12, 12, 12) then 0
    else if c == Rgb(197, 15, 31) then 1
    else if c == Rgb(19, 161, 14) then 2
    else if c == Rgb(193, 156, 0) then 3
    else if c == Rgb(0, 55, 218) then 4
    else if c == Rgb(136, 23, 152) then 5
    else if c == Rgb(58, 150, 221) then 6
    else if c == Rgb(204, 204, 204) then 7
    else if c == Rgb(118, 118, 118) then 8
    else if c == Rgb(231, 72, 86) then 9
    else if c == Rgb(22, 198, 12) then 10
    else if c == Rgb(249, 241, 165) then 11
    else if c == Rgb(59, 120, 255) then 12
    else if c == Rgb(180, 0, 158) then 13
    else if c == Rgb(97, 214, 214) then 14
    else if c == Rgb(242, 242, 242) then 15
    else -1
  }

  /** The simple colours are pairwise different, so each is found at its own position. */
  lemma SimpleIndexOf(k: int)
    requires 0 <= k < 16
    ensures SimpleIndex(SimpleColors[k].ToColor()) == k
  {
  }

  /** The position of a font in `Font.entries`. */
  function FontIndex(f: Font): (k: nat)
    ensures k < 11 && Fonts[k] == f
  {
    match f
    case DEFAULT => 0 case ALT_1 => 1 case ALT_2 => 2 case ALT_3 => 3 case ALT_4 => 4 case ALT_5 => 5
    case ALT_6 => 6 case ALT_7 => 7 case ALT_8 => 8 case ALT_9 => 9 case GOTHIC => 10
  }

  /** The slot of a fixed colour instruction: a simple colour at `normal` or `bright`, anything else at `default`. */
  function ColorSlotOf(v: Value, normal: int, bright: int, default: int): int
  {
    if v.OfColor? then
      var k := SimpleIndex(v.color);
      if 0 <= k < 8 then normal + k else if 8 <= k then bright + k - 8 else default
    else default
  }

  /**
   * The slot an instruction belongs in, worked out from its attribute and
   * value alone; it inverts `Entry`, so no two slots hold the same
   * instruction.
   */
  function SlotOf(i: Instruction): int
  {
    match i.read
    case ParseColor => (match i.attribute case FOREGROUND => 38 case BACKGROUND => 48 case _ => 58)
    case Constant(v) =>
      match i.attribute
      case RESET => 0
      case INTENSITY => if v == OfIntensity(BOLD) then 1 else if v == OfIntensity(FAINT) then 2 else 22
      case ITALIC => if v == OfBool(true) then 3 else 23
      case UNDERLINE => if v == OfUnderline(SINGLE) then 4 else if v == OfUnderline(DOUBLE) then 21 else 24
      case BLINK => if v == OfBlink(SLOW) then 5 else if v == OfBlink(FAST) then 6 else 25
      case INVERT => if v == OfBool(true) then 7 else 27
      case CONCEIL => if v == OfBool(true) then 8 else 28
      case STRIKE => if v == OfBool(true) then 9 else 29
      case FONT => if v.OfFont? then 10 + FontIndex(v.font) else 10
      case PROPORTIONAL_SPACING => if v == OfBool(true) then 26 else 50
      case STYLE => if v == OfStyle(FRAMED) then 51 else if v == OfStyle(ENCIRCLED) then 52 else 54
      case OVERLINE => if v == OfBool(true) then 53 else 55
      case SCRIPT => if v == OfScript(SUPER) then 73 else if v == OfScript(SUB) then 74 else 75
      case FOREGROUND => ColorSlotOf(v, 30, 90, 39)
      case BACKGROUND => ColorSlotOf(v, 40, 100, 49)
      case UNDERLINE_COLOR => 59
  }

  /** `SlotOf` on a foreground colour slot, 30..39 or 90..97. */
  lemma SlotOfForeground(code: InstructionCode)
    requires 30 <= code < 40 || 90 <= code < 98
    ensures SlotOf(Entry(code).value) == code
  {
    if code < 38 {
      SimpleIndexOf(code - 30);
    } else if 90 <= code {
      SimpleIndexOf(code - 90 + 8);
    }
  }

  /** `SlotOf` on a background colour slot, 40..49 or 100..107. */
  lemma SlotOfBackground(code: InstructionCode)
    requires 40 <= code < 50 || 100 <= code
    ensures SlotOf(Entry(code).value) == code
  {
    assert Entry(code).Some?;
    if code < 48 {
      SimpleIndexOf(code - 40);
    } else if 100 <= code {
      SimpleIndexOf(code - 100 + 8);
    }
  }

  /** Every slot's instruction is sent back to that slot by `SlotOf`. */
  lemma SlotOfEntry(code: InstructionCode)
    ensures SlotOf(Entry(code).value) == code
  {
    if 30 <= code < 40 || 90 <= code < 98 {
      SlotOfForeground(code);
    } else if 40 <= code < 50 || 100 <= code {
      SlotOfBackground(code);
    } else if 10 <= code <= 20 {
      FontSlots(code);
    }
  }

  /** `indexOf` finds every instruction of the table at its own slot. */
  lemma IndexOfEntry(code: InstructionCode)
    ensures IndexOfInstruction(InstructionAt(code)) == code
    ensures InTable(InstructionAt(code))
  {
    var i := InstructionAt(code);
    var r := IndexOfInstruction(i);
    SlotOfEntry(code);
    SlotOfEntry(r);
  }

  // ---------------------------------------------------------------- decoding and encoding

  /** What a decoder produced: an exception (the code is then skipped), or a value. */
  datatype Decoded = Threw | Got(value: Value)

  /** A decoder's result and the arguments the iterator has not yet delivered. */
  datatype ReadResult = ReadResult(decoded: Decoded, rest: seq<int>)

  /**
   * `parseColor()`: selector 2 reads three components, selector 5 a
   * palette index (clamped to 0..255), any other selector yields `null`.
   * A missing argument throws `NoSuchElementException` after the iterator
   * has handed out all it had; a component outside 0..255 throws after all
   * three were read.
   */
  function ParseColorFrom(args: seq<int>): (r: ReadResult)
    ensures |r.rest| <= |args| && r.rest == args[|args| - |r.rest|..]
    ensures args != [] ==> |r.rest| < |args|
  {
    if args == [] then ReadResult(Threw, [])
    else if args[0] == 2 then
      if |args| < 4 then ReadResult(Threw, [])
      else
        match NewColor(args[1], args[2], args[3])
        case None => ReadResult(Threw, args[4..])
        case Some(c) => ReadResult(Got(OfColor(c)), args[4..])
    else if args[0] == 5 then
      if |args| < 2 then ReadResult(Threw, [])
      else ReadResult(Got(OfColor(Ansi256Colors()[CoerceIn(args[1], 0, 255)])), args[2..])
    else ReadResult(Got(Null), args[1..])
  }

  /** `writeColor`: `[2, r, g, b]` for a colour, nothing otherwise. */
  function WriteColorOf(value: Value): (args: seq<nat>)
    ensures |args| == 0 || |args| == 4
    ensures value.OfColor? <==> args != []
  {
    match value
    case OfColor(c) => [2, c.red, c.green, c.blue]
    case _ => []
  }

  /** `instruction.read(args)` */
  function ReadValue(instruction: Instruction, args: seq<int>): (r: ReadResult)
    ensures |r.rest| <= |args| && r.rest == args[|args| - |r.rest|..]
  {
    match instruction.read
    case Constant(v) => ReadResult(Got(v), args)
    case ParseColor => ParseColorFrom(args)
  }

  /** `instruction.write(value)` */
  function WriteValue(instruction: Instruction, value: Value): (args: seq<nat>)
    ensures |args| == 0 || |args| == 4
    ensures args != [] <==> instruction.write.WriteColor? && value.OfColor?
  {
    match instruction.write
    case NoArgs => []
    case WriteColor => WriteColorOf(value)
  }

  /** The cases of `parseColor()`, stated against the arguments it is given. */
  lemma ParseColorCases(args: seq<int>)
    ensures args == [] ==> ParseColorFrom(args) == ReadResult(Threw, [])
    ensures |args| >= 4 && args[0] == 2 && InRange(args[1]) && InRange(args[2]) && InRange(args[3]) ==>
      ParseColorFrom(args) == ReadResult(Got(OfColor(Rgb(args[1], args[2], args[3]))), args[4..])
    ensures |args| >= 4 && args[0] == 2 && !(InRange(args[1]) && InRange(args[2]) && InRange(args[3])) ==>
      ParseColorFrom(args) == ReadResult(Threw, args[4..])
    ensures 1 <= |args| < 4 && args[0] == 2 ==> ParseColorFrom(args) == ReadResult(Threw, [])
    ensures |args| >= 2 && args[0] == 5 ==>
      ParseColorFrom(args).decoded == Got(OfColor(Ansi256Colors()[CoerceIn(args[1], 0, 255)]))
      && ParseColorFrom(args).rest == args[2..]
    ensures |args| == 1 && args[0] == 5 ==> ParseColorFrom(args) == ReadResult(Threw, [])
    ensures args != [] && args[0] != 2 && args[0] != 5 ==> ParseColorFrom(args) == ReadResult(Got(Null), args[1..])
  {
  }

  /** `parseColor()` reads back what `writeColor` wrote, and leaves what follows. */
  lemma WriteColorRoundTrip(c: Color, rest: seq<int>)
    ensures ParseColorFrom(WriteColorOf(OfColor(c)) + rest) == ReadResult(Got(OfColor(c)), rest)
  {
    var args := WriteColorOf(OfColor(c)) + rest;
    assert args[0] == 2 && args[1] == c.red && args[2] == c.green && args[3] == c.blue;
    assert args[4..] == rest;
  }

  /** A palette colour is written back in the `2;r;g;b` form: `5;21` becomes `2;0;0;255`. */
  lemma PaletteRewritten()
    ensures ParseColorFrom([5, 21]) == ReadResult(Got(OfColor(Rgb(0, 0, 255))), [])
    ensures WriteColorOf(OfColor(Rgb(0, 0, 255))) == [2, 0, 0, 255]
  {
    PaletteEntry(21);
    assert [5, 21][2..] == [];
  }
}
