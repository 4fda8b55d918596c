/**
 * The builder side of `GraphicsRendition`: the two private `then`
 * overloads, which copy the pairs into a new rendition and append one, and
 * the public mutators (`bold()`, `foregroundRed()`, `font(type)`,
 * `foreground(color)`, ...) built on them.
 */
module RenditionMutators {
  import opened Wrappers
  import opened Text
  import opened RenditionTable
  import opened GraphicsRenditions

  // ---------------------------------------------------------------- then

  /** `then(inst, value)`: a new rendition holding the old pairs and then the given one. */
  function Then(r: GraphicsRendition, instruction: Instruction, value: Value): (t: GraphicsRendition)
    ensures |t.instructions| == |r.instructions| + 1
    ensures t.instructions[..|r.instructions|] == r.instructions
    ensures t.instructions[|r.instructions|] == Pair(instruction, value)
  {
    GraphicsRendition(r.instructions + [Pair(instruction, value)])
  }

  /**
   * `then(index)`: the instruction in slot `index`, stored with the value
   * `null`; `None` where `entries[index]!!` throws, on an empty slot or an
   * index outside the list.
   */
  function ThenIndex(r: GraphicsRendition, index: int): (t: Option<GraphicsRendition>)
    ensures t.Some? <==> Entry(index).Some?
    ensures t.Some? ==> t.value == Then(r, InstructionAt(index), Null)
  {
    if Entry(index).Some? then Some(Then(r, InstructionAt(index), Null)) else None
  }

  /** After `then`, `get` reports the appended value for its attribute, `null` for all others after a reset, and the old answer otherwise. */
  lemma ThenGet(r: GraphicsRendition, instruction: Instruction, value: Value, a: Attribute)
    ensures LatestSetting(Then(r, instruction, value).instructions, a) ==
      if instruction.attribute == a then value
      else if instruction == RESET_INSTRUCTION then Null
      else LatestSetting(r.instructions, a)
  {
    var t := Then(r, instruction, value).instructions;
    assert t[..|t| - 1] == r.instructions;
  }

  /** `then` followed by `normalized` is `normalized` followed by storing the new pair (after clearing, for a reset). */
  lemma ThenNormalize(r: GraphicsRendition, instruction: Instruction, value: Value)
    ensures Normalize(Then(r, instruction, value).instructions) ==
      Put(if instruction == RESET_INSTRUCTION then [] else Normalize(r.instructions), Pair(instruction, value))
  {
    NormalizeSnoc(r.instructions, Pair(instruction, value));
  }

  /** `then` with an instruction of the table keeps a rendition drawn from the table. */
  lemma ThenFromTable(r: GraphicsRendition, instruction: Instruction, value: Value)
    requires FromTable(r.instructions) && InTable(instruction)
    ensures FromTable(Then(r, instruction, value).instructions)
  {
    var t := Then(r, instruction, value).instructions;
    assert forall k :: 0 <= k < |r.instructions| ==> t[k] == r.instructions[k];
  }

  // ---------------------------------------------------------------- mutators

  /**
   * The public mutators, by their names; the `(red, green, blue)` overloads
   * carry the suffix `Rgb`, and `reveal()` is called `unhide` because its
   * name is a Dafny keyword.
   */
  datatype Mutator =
    | reset | bold | faint | underline | blinkSlow | blinkFast | invert | conceal | strike
    | resetFont | font(kind: int) | gothic | doubleUnderline | normalIntensity | noItalic
    | noUnderline | noBlink | proportionalSpacing | notReversed | unhide | noConceal | noStrike
    | foregroundBlack | foregroundRed | foregroundGreen | foregroundYellow
    | foregroundBlue | foregroundMagenta | foregroundCyan | foregroundWhite
    | foreground(color: Color) | foregroundRgb(red: int, green: int, blue: int) | foregroundReset
    | backgroundBlack | backgroundRed | backgroundGreen | backgroundYellow
    | backgroundBlue | backgroundMagenta | backgroundCyan | backgroundWhite
    | background(color: Color) | backgroundRgb(red: int, green: int, blue: int) | backgroundReset
    | noProportionalSpacing | framed | encircle | overline | noStyle | noOverline
    | underlineColor(color: Color) | underlineColorRgb(red: int, green: int, blue: int) | underlineColorReset
    | superscript | subscript | normalScript
    | foregroundGray | foregroundBrightRed | foregroundBrightGreen | foregroundBrightYellow
    | foregroundBrightBlue | foregroundBrightMagenta | foregroundBrightCyan | foregroundBrightWhite
    | backgroundGray | backgroundBrightRed | backgroundBrightGreen | backgroundBrightYellow
    | backgroundBrightBlue | backgroundBrightMagenta | backgroundBrightCyan | backgroundBrightWhite
  {
    /** The mutators that set a colour through `then(inst, value)`. */
    predicate SetsColor()
    {
      foreground? || foregroundRgb? || background? || backgroundRgb? || underlineColor? || underlineColorRgb?
    }

    /** The slot of `Instruction.FOREGROUND`, `BACKGROUND` or `UNDERLINE_COLOR` a colour mutator appends. */
    function ColorIndex(): (code: int)
      requires SetsColor()
      ensures code == 38 || code == 48 || code == 58
    {
      if foreground? || foregroundRgb? then 38 else if background? || backgroundRgb? then 48 else 58
    }

    /** The slot every other mutator hands to `then(index)`, with `backgroundRed` at 41 (see `IndexAsWritten`). */
    function Index(): (i: int)
      requires !SetsColor()
      ensures 0 <= i < SLOT_COUNT && i != 38 && i != 48 && i != 58
      ensures font? ==> 10 <= i <= 19
    {
      match this
      case reset => 0 case bold => 1 case faint => 2 case underline => 4 case blinkSlow => 5
      case blinkFast => 6 case invert => 7 case conceal => 8 case strike => 9 case resetFont => 10
      case font(kind) => 10 + CoerceIn(kind, 0, 9)
      case gothic => 20 case doubleUnderline => 21 case normalIntensity => 22 case noItalic => 23
      case noUnderline => 24 case noBlink => 25 case proportionalSpacing => 26 case notReversed => 27
      case unhide => 28 case noConceal => 28 case noStrike => 29
      case foregroundBlack => 30 case foregroundRed => 31 case foregroundGreen => 32 case foregroundYellow => 33
      case foregroundBlue => 34 case foregroundMagenta => 35 case foregroundCyan => 36 case foregroundWhite => 37
      case foregroundReset => 39
      case backgroundBlack => 40 case backgroundRed => 41 case backgroundGreen => 42 case backgroundYellow => 43
      case backgroundBlue => 44 case backgroundMagenta => 45 case backgroundCyan => 46 case backgroundWhite => 47
      case backgroundReset => 49
      case noProportionalSpacing => 50 case framed => 51 case encircle => 52 case overline => 53
      case noStyle => 54 case noOverline => 55 case underlineColorReset => 59
      case superscript => 73 case subscript => 74 case normalScript => 75
      case foregroundGray => 90 case foregroundBrightRed => 91 case foregroundBrightGreen => 92
      case foregroundBrightYellow => 93 case foregroundBrightBlue => 94 case foregroundBrightMagenta => 95
      case foregroundBrightCyan => 96 case foregroundBrightWhite => 97
      case backgroundGray => 100 case backgroundBrightRed => 101 case backgroundBrightGreen => 102
      case backgroundBrightYellow => 103 case backgroundBrightBlue => 104 case backgroundBrightMagenta => 105
      case backgroundBrightCyan => 106 case backgroundBrightWhite => 107
    }

    /** The slot as the source writes it: `backgroundRed()` calls `then(431)`. */
    function IndexAsWritten(): (i: int)
      requires !SetsColor()
      ensures i != Index() <==> backgroundRed?
      ensures backgroundRed? ==> i >= SLOT_COUNT
    {
      if backgroundRed? then 431 else Index()
    }

    /**
     * What each mutator's name says it sets, written down independently of
     * the table: the attribute, and the value that slot carries.
     */
    function Intended(): (i: Instruction)
      requires !SetsColor()
      ensures i.attribute == RESET <==> reset?
      ensures i == RESET_INSTRUCTION <==> reset?
    {
      match this
      case reset => RESET_INSTRUCTION
      case bold => Fixed(INTENSITY, OfIntensity(BOLD))
      case faint => Fixed(INTENSITY, OfIntensity(FAINT))
      case underline => Fixed(UNDERLINE, OfUnderline(SINGLE))
      case blinkSlow => Fixed(BLINK, OfBlink(SLOW))
      case blinkFast => Fixed(BLINK, OfBlink(FAST))
      case invert => Fixed(INVERT, OfBool(true))
      case conceal => Fixed(CONCEIL, OfBool(true))
      case strike => Fixed(STRIKE, OfBool(true))
      case resetFont => Fixed(FONT, OfFont(DEFAULT))
      case font(kind) => Fixed(FONT, OfFont(Fonts[CoerceIn(kind, 0, 9)]))
      case gothic => Fixed(FONT, OfFont(GOTHIC))
      case doubleUnderline => Fixed(UNDERLINE, OfUnderline(DOUBLE))
      case normalIntensity => Fixed(INTENSITY, OfIntensity(Intensity.NORMAL))
      case noItalic => Fixed(ITALIC, OfBool(false))
      case noUnderline => Fixed(UNDERLINE, OfUnderline(Underline.NONE))
      case noBlink => Fixed(BLINK, OfBlink(Blink.NONE))
      case proportionalSpacing => Fixed(PROPORTIONAL_SPACING, OfBool(true))
      case notReversed => Fixed(INVERT, OfBool(false))
      case unhide => Fixed(CONCEIL, OfBool(false))
      case noConceal => Fixed(CONCEIL, OfBool(false))
      case noStrike => Fixed(STRIKE, OfBool(false))
      case foregroundBlack => Fixed(FOREGROUND, OfColor(BLACK.ToColor()))
      case foregroundRed => Fixed(FOREGROUND, OfColor(RED.ToColor()))
      case foregroundGreen => Fixed(FOREGROUND, OfColor(GREEN.ToColor()))
      case foregroundYellow => Fixed(FOREGROUND, OfColor(YELLOW.ToColor()))
      case foregroundBlue => Fixed(FOREGROUND, OfColor(BLUE.ToColor()))
      case foregroundMagenta => Fixed(FOREGROUND, OfColor(MAGENTA.ToColor()))
      case foregroundCyan => Fixed(FOREGROUND, OfColor(CYAN.ToColor()))
      case foregroundWhite => Fixed(FOREGROUND, OfColor(WHITE.ToColor()))
      case foregroundReset => Fixed(FOREGROUND, Null)
      case backgroundBlack => Fixed(BACKGROUND, OfColor(BLACK.ToColor()))
      case backgroundRed => Fixed(BACKGROUND, OfColor(RED.ToColor()))
      case backgroundGreen => Fixed(BACKGROUND, OfColor(GREEN.ToColor()))
      case backgroundYellow => Fixed(BACKGROUND, OfColor(YELLOW.ToColor()))
      case backgroundBlue => Fixed(BACKGROUND, OfColor(BLUE.ToColor()))
      case backgroundMagenta => Fixed(BACKGROUND, OfColor(MAGENTA.ToColor()))
      case backgroundCyan => Fixed(BACKGROUND, OfColor(CYAN.ToColor()))
      case backgroundWhite => Fixed(BACKGROUND, OfColor(WHITE.ToColor()))
      case backgroundReset => Fixed(BACKGROUND, Null)
      case noProportionalSpacing => Fixed(PROPORTIONAL_SPACING, OfBool(false))
      case framed => Fixed(STYLE, OfStyle(FRAMED))
      case encircle => Fixed(STYLE, OfStyle(ENCIRCLED))
      case overline => Fixed(OVERLINE, OfBool(true))
      case noStyle => Fixed(STYLE, OfStyle(Style.NORMAL))
      case noOverline => Fixed(OVERLINE, OfBool(false))
      case underlineColorReset => Fixed(UNDERLINE_COLOR, Null)
      case superscript => Fixed(SCRIPT, OfScript(SUPER))
      case subscript => Fixed(SCRIPT, OfScript(SUB))
      case normalScript => Fixed(SCRIPT, OfScript(Script.NORMAL))
      case foregroundGray => Fixed(FOREGROUND, OfColor(GRAY.ToColor()))
      case foregroundBrightRed => Fixed(FOREGROUND, OfColor(RED_BRIGHT.ToColor()))
      case foregroundBrightGreen => Fixed(FOREGROUND, OfColor(GREEN_BRIGHT.ToColor()))
      case foregroundBrightYellow => Fixed(FOREGROUND, OfColor(YELLOW_BRIGHT.ToColor()))
      case foregroundBrightBlue => Fixed(FOREGROUND, OfColor(BLUE_BRIGHT.ToColor()))
      case foregroundBrightMagenta => Fixed(FOREGROUND, OfColor(MAGENTA_BRIGHT.ToColor()))
      case foregroundBrightCyan => Fixed(FOREGROUND, OfColor(CYAN_BRIGHT.ToColor()))
      case foregroundBrightWhite => Fixed(FOREGROUND, OfColor(WHITE_BRIGHT.ToColor()))
      case backgroundGray => Fixed(BACKGROUND, OfColor(GRAY.ToColor()))
      case backgroundBrightRed => Fixed(BACKGROUND, OfColor(RED_BRIGHT.ToColor()))
      case backgroundBrightGreen => Fixed(BACKGROUND, OfColor(GREEN_BRIGHT.ToColor()))
      case backgroundBrightYellow => Fixed(BACKGROUND, OfColor(YELLOW_BRIGHT.ToColor()))
      case backgroundBrightBlue => Fixed(BACKGROUND, OfColor(BLUE_BRIGHT.ToColor()))
      case backgroundBrightMagenta => Fixed(BACKGROUND, OfColor(MAGENTA_BRIGHT.ToColor()))
      case backgroundBrightCyan => Fixed(BACKGROUND, OfColor(CYAN_BRIGHT.ToColor()))
      case backgroundBrightWhite => Fixed(BACKGROUND, OfColor(WHITE_BRIGHT.ToColor()))
    }
  }

  /**
   * Calling a mutator on `r`: a colour mutator appends its colour (the
   * `Rgb` overloads only when `Color(red, green, blue)` does not throw),
   * every other one goes through `then(index)`.
   */
  function Apply(r: GraphicsRendition, m: Mutator): (t: Option<GraphicsRendition>)
    ensures t.Some? ==> |t.value.instructions| == |r.instructions| + 1
    ensures t.Some? ==> t.value.instructions[..|r.instructions|] == r.instructions
    ensures m.SetsColor() ==> (t.Some? <==> ColorOf(m).Some?)
    ensures m.SetsColor() && t.Some? ==>
      t.value.instructions[|r.instructions|] == Pair(InstructionAt(m.ColorIndex()), OfColor(ColorOf(m).value))
    ensures !m.SetsColor() ==> (t.Some? <==> Entry(m.Index()).Some?)
    ensures !m.SetsColor() && t.Some? ==> t.value.instructions[|r.instructions|].value == Null
  {
    if m.SetsColor() then ThenColor(r, m.ColorIndex(), ColorOf(m)) else ThenIndex(r, m.Index())
  }

  /** The colour a colour mutator appends, or `None` where `Color(red, green, blue)` throws. */
  function ColorOf(m: Mutator): (c: Option<Color>)
    requires m.SetsColor()
    ensures m.foreground? || m.background? || m.underlineColor? ==> c == Some(m.color)
    ensures !(m.foreground? || m.background? || m.underlineColor?) ==> c == NewColor(m.red, m.green, m.blue)
  {
    if m.foreground? || m.background? || m.underlineColor? then Some(m.color) else NewColor(m.red, m.green, m.blue)
  }

  /** `then(inst, Color(red, green, blue))`: nothing when the constructor throws. */
  function ThenColor(r: GraphicsRendition, code: int, c: Option<Color>): (t: Option<GraphicsRendition>)
    requires code == 38 || code == 48 || code == 58
    ensures t.Some? <==> c.Some?
  {
    match c
    case None => None
    case Some(color) => Some(Then(r, InstructionAt(code), OfColor(color)))
  }

  // ---------------------------------------------------------------- what the mutators do

  /** The slot every mutator other than the colour ones names holds exactly what the mutator's name says. */
  lemma MutatorSlot(m: Mutator)
    requires !m.SetsColor()
    ensures Entry(m.Index()) == Some(m.Intended())
  {
    var code := m.Index();
    if code < 5 {
      BasicLowSlots(m);
    } else if code < 10 {
      BasicHighSlots(m);
    } else if code < 21 {
      FontMutatorSlot(m);
    } else if code < 25 {
      UndoLowSlots(m);
    } else if code < 30 {
      UndoHighSlots(m);
    } else if code < 35 {
      ForegroundLowSlots(m);
    } else if code < 40 {
      ForegroundHighSlots(m);
    } else if code < 45 {
      BackgroundLowSlots(m);
    } else if code < 50 {
      BackgroundHighSlots(m);
    } else if code < 90 {
      LateMutatorSlot(m);
    } else if code < 100 {
      BrightLowSlots(m);
    } else {
      BrightHighSlots(m);
    }
  }

  /** `MutatorSlot` for slots 0..4. */
  lemma BasicLowSlots(m: Mutator)
    requires !m.SetsColor() && m.Index() < 5
    ensures Entry(m.Index()) == Some(m.Intended())
  {
  }

  /** `MutatorSlot` for slots 5..9. */
  lemma BasicHighSlots(m: Mutator)
    requires !m.SetsColor() && 5 <= m.Index() < 10
    ensures Entry(m.Index()) == Some(m.Intended())
  {
  }

  /** `MutatorSlot` for the fonts, slots 10..20. */
  lemma FontMutatorSlot(m: Mutator)
    requires !m.SetsColor() && 10 <= m.Index() < 21
    ensures Entry(m.Index()) == Some(m.Intended())
  {
    FontSlots(m.Index());
  }

  /** `MutatorSlot` for slots 21..24. */
  lemma UndoLowSlots(m: Mutator)
    requires !m.SetsColor() && 21 <= m.Index() < 25
    ensures Entry(m.Index()) == Some(m.Intended())
  {
  }

  /** `MutatorSlot` for slots 25..29. */
  lemma UndoHighSlots(m: Mutator)
    requires !m.SetsColor() && 25 <= m.Index() < 30
    ensures Entry(m.Index()) == Some(m.Intended())
  {
  }

  /** `MutatorSlot` for slots 30..34. */
  lemma ForegroundLowSlots(m: Mutator)
    requires !m.SetsColor() && 30 <= m.Index() < 35
    ensures Entry(m.Index()) == Some(m.Intended())
  {
  }

  /** `MutatorSlot` for slots 35..39. */
  lemma ForegroundHighSlots(m: Mutator)
    requires !m.SetsColor() && 35 <= m.Index() < 40
    ensures Entry(m.Index()) == Some(m.Intended())
  {
  }

  /** `MutatorSlot` for slots 40..44. */
  lemma BackgroundLowSlots(m: Mutator)
    requires !m.SetsColor() && 40 <= m.Index() < 45
    ensures Entry(m.Index()) == Some(m.Intended())
  {
  }

  /** `MutatorSlot` for slots 45..49. */
  lemma BackgroundHighSlots(m: Mutator)
    requires !m.SetsColor() && 45 <= m.Index() < 50
    ensures Entry(m.Index()) == Some(m.Intended())
  {
  }

  /** `MutatorSlot` for slots 50..89. */
  lemma LateMutatorSlot(m: Mutator)
    requires !m.SetsColor() && 50 <= m.Index() < 90
    ensures Entry(m.Index()) == Some(m.Intended())
  {
  }

  /** `MutatorSlot` for slots 90..99. */
  lemma BrightLowSlots(m: Mutator)
    requires !m.SetsColor() && 90 <= m.Index() < 100
    ensures Entry(m.Index()) == Some(m.Intended())
  {
  }

  /** `MutatorSlot` for slots 100 and up. */
  lemma BrightHighSlots(m: Mutator)
    requires !m.SetsColor() && 100 <= m.Index()
    ensures Entry(m.Index()) == Some(m.Intended())
  {
  }

  /** Every mutator other than the colour ones appends its instruction with the value `null`, and never fails. */
  lemma ApplyIndexed(r: GraphicsRendition, m: Mutator)
    requires !m.SetsColor()
    ensures Apply(r, m) == Some(Then(r, m.Intended(), Null))
  {
    MutatorSlot(m);
  }

  /**
   * `then(index)` stores `null`, so after such a mutator `get` reports
   * `null` for the attribute it set, even though the slot's own value (what
   * `parse` would have stored) is not `null` for most of them.
   */
  lemma MutatorGet(r: GraphicsRendition, m: Mutator, a: Attribute)
    requires !m.SetsColor()
    ensures Apply(r, m).Some?
    ensures LatestSetting(Apply(r, m).value.instructions, a) ==
      if m.Intended().attribute == a || m.reset? then Null else LatestSetting(r.instructions, a)
  {
    ApplyIndexed(r, m);
    ThenGet(r, m.Intended(), Null, a);
  }

  /** The attribute a colour mutator sets: `FOREGROUND`, `BACKGROUND` or `UNDERLINE_COLOR`. */
  function Layer(m: Mutator): Attribute
    requires m.SetsColor()
  {
    if m.ColorIndex() == 38 then FOREGROUND else if m.ColorIndex() == 48 then BACKGROUND else UNDERLINE_COLOR
  }

  /**
   * A colour mutator appends `Instruction.FOREGROUND`, `BACKGROUND` or
   * `UNDERLINE_COLOR` with its colour, and `get` then reports that colour
   * for the layer; an `Rgb` overload throws when a component is outside
   * 0..255.
   */
  lemma ApplyColor(r: GraphicsRendition, m: Mutator, a: Attribute)
    requires m.SetsColor()
    ensures m.foreground? || m.background? || m.underlineColor? ==> Apply(r, m).Some?
    ensures m.foregroundRgb? || m.backgroundRgb? || m.underlineColorRgb? ==>
      (Apply(r, m).Some? <==> InRange(m.red) && InRange(m.green) && InRange(m.blue))
    ensures Apply(r, m).Some? ==> ColorOf(m).Some? && Apply(r, m).value == Then(r, Extended(Layer(m)), OfColor(ColorOf(m).value))
    ensures Apply(r, m).Some? ==>
      LatestSetting(Apply(r, m).value.instructions, a) == if a == Layer(m) then OfColor(ColorOf(m).value) else LatestSetting(r.instructions, a)
  {
    var code := m.ColorIndex();
    TableShape(code);
    var c := ColorOf(m);
    if c.Some? {
      ThenGet(r, InstructionAt(code), OfColor(c.value), a);
    }
  }

  /** Every mutator keeps a rendition drawn from the table. */
  lemma ApplyFromTable(r: GraphicsRendition, m: Mutator)
    requires FromTable(r.instructions)
    ensures Apply(r, m).Some? ==> FromTable(Apply(r, m).value.instructions)
  {
    if m.SetsColor() {
      var c := ColorOf(m);
      if c.Some? {
        IndexOfEntry(m.ColorIndex());
        ThenFromTable(r, InstructionAt(m.ColorIndex()), OfColor(c.value));
      }
    } else if Entry(m.Index()).Some? {
      IndexOfEntry(m.Index());
      ThenFromTable(r, InstructionAt(m.Index()), Null);
    }
  }

  /** `font(type)` clamps its argument to 0..9: it picks `DEFAULT` or `ALT_1`..`ALT_9`, never `GOTHIC`. */
  lemma FontClamps(r: GraphicsRendition, kind: int)
    ensures 10 <= font(kind).Index() <= 19
    ensures 0 <= kind <= 9 ==> font(kind).Index() == 10 + kind
    ensures kind < 0 ==> Apply(r, font(kind)) == Apply(r, resetFont)
    ensures kind > 9 ==> Apply(r, font(kind)) == Apply(r, font(9))
    ensures font(kind).Intended() != gothic.Intended()
  {
  }

  /** `reveal()` (here `unhide`) and `noConceal()` are the same mutator. */
  lemma UnhideIsNoConceal(r: GraphicsRendition)
    ensures Apply(r, unhide) == Apply(r, noConceal)
    ensures unhide.Intended() == Fixed(CONCEIL, OfBool(false))
  {
  }

  /** `backgroundRed()` as written: slot 431 is outside the list, so `then(431)` throws instead of appending slot 41. */
  lemma BackgroundRedAsWritten(r: GraphicsRendition)
    ensures backgroundRed.IndexAsWritten() == 431
    ensures ThenIndex(r, backgroundRed.IndexAsWritten()) == None
    ensures Entry(41) == Some(backgroundRed.Intended())
    ensures Apply(r, backgroundRed).Some?
  {
    MutatorSlot(backgroundRed);
  }

  // ---------------------------------------------------------------- mutators and toString

  /** Appending a pair of the table appends its parameters. */
  lemma {:induction false} ParamsSnoc(pairs: seq<Pair>, p: Pair)
    requires FromTable(pairs) && InTable(p.instruction)
    ensures FromTable(pairs + [p])
    ensures Params(pairs + [p]) == Params(pairs) + PairParams(p)
    decreases |pairs|
  {
    ThenFromTable(GraphicsRendition(pairs), p.instruction, p.value);
    assert Then(GraphicsRendition(pairs), p.instruction, p.value).instructions == pairs + [p];
    if pairs != [] {
      FromTableTail(pairs);
      assert (pairs + [p])[1..] == pairs[1..] + [p];
      ParamsSnoc(pairs[1..], p);
    }
  }

  /** Appending the instruction of slot `code` appends `code` and the written value. */
  lemma ThenParams(r: GraphicsRendition, code: InstructionCode, value: Value)
    requires FromTable(r.instructions)
    ensures FromTable(Then(r, InstructionAt(code), value).instructions)
    ensures Params(Then(r, InstructionAt(code), value).instructions) ==
      Params(r.instructions) + [code] + WriteValue(InstructionAt(code), value)
  {
    var p := Pair(InstructionAt(code), value);
    IndexOfEntry(code);
    assert Then(r, InstructionAt(code), value).instructions == r.instructions + [p];
    AppendParams(r.instructions, p);
  }

  /** `ParamsSnoc` with the appended pair's parameters spelled out. */
  lemma AppendParams(pairs: seq<Pair>, p: Pair)
    requires FromTable(pairs) && InTable(p.instruction)
    ensures FromTable(pairs + [p])
    ensures Params(pairs + [p]) == Params(pairs) + [Code(p) as nat] + WriteValue(p.instruction, p.value)
  {
    ParamsSnoc(pairs, p);
    var w := WriteValue(p.instruction, p.value);
    assert Params(pairs) + ([Code(p) as nat] + w) == Params(pairs) + [Code(p) as nat] + w;
  }

  /** Appending slot `code` with the value `null` appends just `code`. */
  lemma ThenNullParams(r: GraphicsRendition, code: InstructionCode)
    requires FromTable(r.instructions)
    ensures FromTable(Then(r, InstructionAt(code), Null).instructions)
    ensures Params(Then(r, InstructionAt(code), Null).instructions) == Params(r.instructions) + [code]
  {
    ThenParams(r, code, Null);
    assert WriteValue(InstructionAt(code), Null) == [];
  }

  /** Appending a colour slot with a colour appends the slot and `2;r;g;b`. */
  lemma ThenColorParams(r: GraphicsRendition, code: InstructionCode, c: Color)
    requires FromTable(r.instructions) && Entry(code).value.write.WriteColor?
    ensures FromTable(Then(r, InstructionAt(code), OfColor(c)).instructions)
    ensures Params(Then(r, InstructionAt(code), OfColor(c)).instructions) ==
      Params(r.instructions) + [code, 2, c.red, c.green, c.blue]
  {
    ThenParams(r, code, OfColor(c));
    ColorWritten(Params(r.instructions), code, InstructionAt(code), c);
  }

  /** A colour-writing instruction writes a colour as `2;r;g;b`, after its slot. */
  lemma ColorWritten(before: seq<nat>, code: nat, i: Instruction, c: Color)
    requires i.write.WriteColor?
    ensures before + [code] + WriteValue(i, OfColor(c)) == before + [code, 2, c.red, c.green, c.blue]
  {
  }

  /** A mutator other than a colour one adds its slot to what `toString` writes. */
  lemma MutatorParams(r: GraphicsRendition, m: Mutator)
    requires FromTable(r.instructions) && !m.SetsColor()
    ensures Apply(r, m).Some? && FromTable(Apply(r, m).value.instructions)
    ensures Params(Apply(r, m).value.instructions) == Params(r.instructions) + [m.Index()]
  {
    MutatorSlot(m);
    ThenNullParams(r, m.Index());
  }

  /** A colour mutator adds its slot and `2;r;g;b` to what `toString` writes. */
  lemma ColorMutatorParams(r: GraphicsRendition, m: Mutator, c: Color)
    requires FromTable(r.instructions) && (m.foreground? || m.background? || m.underlineColor?) && m.color == c
    ensures Apply(r, m).Some? && FromTable(Apply(r, m).value.instructions)
    ensures Params(Apply(r, m).value.instructions) == Params(r.instructions) + [m.ColorIndex(), 2, c.red, c.green, c.blue]
  {
    ColorSlotWrites(m.ColorIndex());
    ApplyColorIs(r, m);
    ThenColorParams(r, m.ColorIndex(), c);
  }

  /** The colour slots 38, 48 and 58 write their value as a colour. */
  lemma ColorSlotWrites(code: int)
    requires code == 38 || code == 48 || code == 58
    ensures Entry(code).Some? && Entry(code).value.write.WriteColor?
  {
  }

  /** `foreground(color)`, `background(color)` and `underlineColor(color)` append their slot with the colour. */
  lemma ApplyColorIs(r: GraphicsRendition, m: Mutator)
    requires m.foreground? || m.background? || m.underlineColor?
    ensures Apply(r, m) == Some(Then(r, InstructionAt(m.ColorIndex()), OfColor(m.color)))
  {
  }

  /** Two mutators other than colour ones, one after the other, add their two slots. */
  lemma TwoMutatorParams(r: GraphicsRendition, m1: Mutator, m2: Mutator)
    requires FromTable(r.instructions) && !m1.SetsColor() && !m2.SetsColor()
    ensures Apply(r, m1).Some? && Apply(Apply(r, m1).value, m2).Some?
    ensures var t := Apply(Apply(r, m1).value, m2).value;
      FromTable(t.instructions) && Params(t.instructions) == Params(r.instructions) + [m1.Index(), m2.Index()]
  {
    MutatorParams(r, m1);
    MutatorParams(Apply(r, m1).value, m2);
  }

  /** The unit test: `GraphicsRendition().bold().foregroundRed()` has the parameters `1` and `31`, both fixed-value slots. */
  lemma BoldRedParams(r: GraphicsRendition)
    requires r == GraphicsRendition([])
    ensures Apply(r, bold).Some? && Apply(Apply(r, bold).value, foregroundRed).Some?
    ensures var t := Apply(Apply(r, bold).value, foregroundRed).value;
      FromTable(t.instructions) && Params(t.instructions) == [1, 31]
  {
    assert Params(r.instructions) == [];
    assert [bold.Index(), foregroundRed.Index()] == [1, 31];
    TwoMutatorParams(r, bold, foregroundRed);
  }

  /** Two mutators other than colour ones on an empty rendition, for different attributes and the second not a reset, leave it normalized. */
  lemma TwoMutatorsNormalized(r: GraphicsRendition, m1: Mutator, m2: Mutator)
    requires r.instructions == [] && !m1.SetsColor() && !m2.SetsColor()
    requires m2.Intended() != RESET_INSTRUCTION && m1.Intended().attribute != m2.Intended().attribute
    ensures Apply(r, m1).Some? && Apply(Apply(r, m1).value, m2).Some?
    ensures var t := Apply(Apply(r, m1).value, m2).value;
      Normalize(t.instructions) == t.instructions
  {
    ApplyIndexed(r, m1);
    var b := Apply(r, m1).value;
    ApplyIndexed(b, m2);
    var t := Apply(b, m2).value;
    assert t.instructions == [Pair(m1.Intended(), Null), Pair(m2.Intended(), Null)];
    CanonicalFixpoint(t.instructions);
  }

  /** ... which is already normalized: two different attributes and no reset. */
  lemma BoldRedNormalized(r: GraphicsRendition)
    requires r == GraphicsRendition([])
    ensures Apply(r, bold).Some? && Apply(Apply(r, bold).value, foregroundRed).Some?
    ensures var t := Apply(Apply(r, bold).value, foregroundRed).value;
      Normalize(t.instructions) == t.instructions
  {
    TwoMutatorsNormalized(r, bold, foregroundRed);
  }

  /** ... so `compile()` gives `ESC [ 1 ; 3 1 m`. */
  lemma CompileBoldRed(r: GraphicsRendition)
    requires r == GraphicsRendition([])
    ensures Apply(r, bold).Some? && Apply(Apply(r, bold).value, foregroundRed).Some?
    ensures Compile(Apply(Apply(r, bold).value, foregroundRed).value) == "\U{1B}[1;31m"
  {
    BoldRedParams(r);
    BoldRedNormalized(r);
    var t := Apply(Apply(r, bold).value, foregroundRed).value;
    CompileParams(t);
    BoldRedText();
  }

  /** The parameters `1` and `31` as `toString` joins them. */
  lemma BoldRedText()
    ensures "\U{1B}[" + Join(Decimals([1, 31]), ';') + "m" == "\U{1B}[1;31m"
  {
    assert NatToString(1) == "1";
    assert NatToString(31) == NatToString(3) + [DigitChar(1)] == "31";
    assert Decimals([1, 31]) == ["1", "31"];
    JoinCons("1", ["31"], ';');
  }
}
