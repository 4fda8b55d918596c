# ECMA-48 tokenizer and SGR renditions, modelled in Dafny

This project models the two algorithmic parts of the Kotlin snippet collection
KotlinSnippets and proves properties of the model.

- **The ECMA-48 tokenizer and its tables** (`ecma48/controlFunctions.kt`). It covers
  five pieces:
  - the C0 and C1 control-function tables, with the 7-bit and 8-bit codes of C1;
  - the standard and private control-sequence functions;
  - the `ControlSequence` value, with its rendering and its `parameters` decoding;
  - the `printable` escaper;
  - the `Ecma48Reader`, which pulls characters from a source through a pushback buffer.

  The reader turns them into literal characters, C0 functions, 7-bit C1 functions and
  control sequences (ECMA-48 5th edition, sections 5.2 to 5.4). On a cut-off or unknown
  sequence it emits only the ESC and pushes every later byte back in order. The reader is a
  class whose `Next` method is proved against a pure one-step function `Read`. Every
  property of the tokenizer is proved about `Read`. The headline result is losslessness:
  the emitted tokens, rendered, followed by the buffer always spell what was read from the
  source, provided C1 introducers use their 7-bit form.
- **SELECT GRAPHIC RENDITION** (`ansi/GraphicsRendition.kt`, ECMA-48 section 8.3.117,
  plus the 38/48/58 extended-colour forms). It covers:
  - the 108-slot instruction table and the 256-colour palette;
  - `parse`, `get` and `normalized`, each a method with a loop proved against a
    specification function;
  - `then` and all public mutators, with `backgroundRed` at its intended slot 41 (see
    "Findings");
  - `toString` and `compile`.

  The lemmas cover several properties:
  - `parse` never aborts;
  - `get`, matching on the instruction's attribute as corrected under "Findings", answers
    with the last setting that has no `RESET` after it;
  - `normalized` is canonical and idempotent. It begins with `RESET` exactly when one
    occurred, and answers `get` the same way. It keeps the map's order: entries stand in
    the order their attributes were first set after the last `RESET`;
  - `parse(toString())` gives back the pairs;
  - every unit-test scenario except the two listed under "Left out" (the serialisation
    test and the test that chains the reader into `parse`).

Files, one module each:

| file | module | content |
|---|---|---|
| `wrappers.dfy` | `Wrappers` | `Option` |
| `text.dfy` | `Text` | decimal digits, `joinToString`, `split` |
| `control_functions.dfy` | `ControlFunctions` | C0/C1/CS tables, `ControlSequence`, `printable` |
| `ecma48_reader.dfy` | `Ecma48Reading` | tokens, `Read`, losslessness, class `Ecma48Reader` |
| `rendition_table.dfy` | `RenditionTable` | colours, palette, attributes, values, `Instruction.entries`, `parseColor`/`writeColor` |
| `graphics_rendition.dfy` | `GraphicsRenditions` | `parse`, `get`, `normalized`, `toString`, `compile`, test scenarios |
| `rendition_mutators.dfy` | `RenditionMutators` | `then` and the mutators |

The model makes these representation choices:

- **Reader input.**
  - The `java.io.Reader` is a sequence of character codes plus a cursor.
  - `closed` is the flag that `readNext` sets when the source reports its end.
  - The `ArrayDeque` buffer is a sequence.
- **SGR values.**
  - An instruction is its entry in the table.
  - A value is a datatype. Its variants are an enum case, a boolean, a colour, or `Null`.
  - `java.awt.Color` is a triple of components. It is a subset type that carries the
    constructor's 0..255 range check.

## Model

| member | source | states |
|---|---|---|
| Text.NatToString | ansi/GraphicsRendition.kt:80-82 | the decimal text of a natural is non-empty, all digits, and one digit exactly below 10 |
| Text.NatToStringRoundTrip | ecma48/controlFunctions.kt:133 | reading the digits back gives the number (what `toDoubleOrNull` does on a digit string) |
| Text.Decimals | ansi/GraphicsRendition.kt:79-83 | each value becomes its decimal text, in order: a non-empty digit string that reads back as that value |
| Text.JoinAppend | ansi/GraphicsRendition.kt:79-83 | joining two non-empty lists with a separator is joining each and putting the separator between |
| Text.Join | ansi/GraphicsRendition.kt:79-83 | a single part joins to itself, and a join begins with its first part |
| Text.Split | ecma48/controlFunctions.kt:133 | `split(";")` gives at least one segment and no segment holds the separator |
| Text.SplitJoin | ecma48/controlFunctions.kt:133 | splitting a joined list of separator-free parts gives the parts back |
| ControlFunctions.ToChar | ecma48/controlFunctions.kt:82 | `Int.toChar()` keeps the low 16 bits, and is the identity on 0..0xFFFF |
| ControlFunctions.C0Function.Code | ecma48/controlFunctions.kt:27-30 | every C0 function's code is in 0x00..0x1F |
| ControlFunctions.C0Find | ecma48/controlFunctions.kt:31-34 | `C0Function[code]` exists exactly for 0..0x1F and has that code |
| ControlFunctions.C0FindCode | ecma48/controlFunctions.kt:27-34 | looking up a function's own code finds that function |
| ControlFunctions.C1Function.Base | ecma48/controlFunctions.kt:47-63 | every base is in 0..0x1F except the gaps 0x00, 0x01, 0x04 and 0x19 |
| ControlFunctions.C1Function.Str | ecma48/controlFunctions.kt:74 | a C1 function renders as exactly ESC and its 7-bit code, base + 0x40, a byte in 0x40..0x5F |
| ControlFunctions.C1ByBase | ecma48/controlFunctions.kt:47-63 | there is a function for a base exactly when the base is one of the 28 listed |
| ControlFunctions.C1Find | ecma48/controlFunctions.kt:65-72 | `C1Function[code]` exists exactly for base+0x40 or base+0x80 over the listed bases, and the result has that 7-bit or 8-bit code |
| ControlFunctions.C1FindCodes | ecma48/controlFunctions.kt:65-72 | both codes of every function find that function |
| ControlFunctions.C1Gaps | ecma48/controlFunctions.kt:47-63 | 0x40, 0x41, 0x44, 0x59 and their 8-bit twins name no function |
| ControlFunctions.StandardKeysNamed | ecma48/controlFunctions.kt:195-211 | a (final byte, 0x20 intermediate) key is in the table exactly when it has a mnemonic |
| ControlFunctions.StandardFind | ecma48/controlFunctions.kt:215-217 | `StandardCSFunction[code, spaced]` exists exactly for the table's keys and carries that key |
| ControlFunctions.StandardPlainDomain | ecma48/controlFunctions.kt:195-211 | the table without intermediate covers 0x40..0x6F except 0x5F, and 0x6D is SGR |
| ControlFunctions.StandardSpacedDomain | ecma48/controlFunctions.kt:195-211 | the table with 0x20 covers 0x40..0x6F except 0x4E, 0x69, 0x6A and 0x6C..0x6F |
| ControlFunctions.CSFunction.Str | ecma48/controlFunctions.kt:180 | a function renders as its intermediates and one final byte |
| ControlFunctions.CSFunction.IsSame | ecma48/controlFunctions.kt:175-178 | `isSame` holds only against a private function with the same final and intermediate bytes, which then renders the same |
| ControlFunctions.IsSameAsymmetric | ecma48/controlFunctions.kt:175-178 | a standard function `isSame` the private function with its bytes, while that private function is not the same as the standard one |
| ControlFunctions.CSFind | ecma48/controlFunctions.kt:183-188 | a function found carries the given final and intermediates; `single()` throws exactly for a final in 0x40..0x6F with two or more intermediates |
| ControlFunctions.CSFindCases | ecma48/controlFunctions.kt:183-188 | each branch outright: standard, spaced standard, null for another single intermediate, private for 0x70..0x7F, null otherwise |
| ControlFunctions.CodesStr | ecma48/controlFunctions.kt:82 | `IntArray.str` yields one character per code, in order |
| ControlFunctions.CodesStrIdentity | ecma48/controlFunctions.kt:82 | codes that are characters render as themselves |
| ControlFunctions.ControlSequence.Str | ecma48/controlFunctions.kt:152 | a sequence renders as the 7-bit CSI of the C1 table, the parameter bytes, then the function's own rendering |
| ControlFunctions.ControlSequence.ParameterChars | ecma48/controlFunctions.kt:131 | one character per parameter byte, carrying that byte's code, in '0'..'?' |
| ControlFunctions.ControlSequence.Parameters | ecma48/controlFunctions.kt:131-133 | `parameters` yields at least one value, and `[1]` for no parameter bytes |
| ControlFunctions.SegmentValue | ecma48/controlFunctions.kt:133 | a segment of digits only gives its decimal value; a segment that is empty or holds a non-digit gives 1 |
| ControlFunctions.ParametersOfJoined | ecma48/controlFunctions.kt:131-133 | parameter bytes written as a `;`-joined decimal list are valid parameter bytes and decode to exactly those values |
| ControlFunctions.JoinDigitsOrSemicolon | ecma48/controlFunctions.kt:122 | a `;`-joined list of digit strings consists of parameter bytes only |
| ControlFunctions.ParametersExample | tests/Ecma48ReaderTest.kt:24-32 | the parameter bytes `31;42` decode to 31 and 42 |
| ControlFunctions.StandardNeverEquals | ecma48/controlFunctions.kt:134-143 | `equals` (without `===`) is false against any sequence whose function is standard, because `isSame` accepts only private functions |
| ControlFunctions.ControlSequence.Equals | ecma48/controlFunctions.kt:134-143 | sequences found equal have a private function on the other side and render the same |
| ControlFunctions.PrivateEquals | ecma48/controlFunctions.kt:134-143 | against a private function, `equals` holds exactly when final, intermediates, parameter bytes and intermediate bytes agree; between private functions it is structural equality, and symmetric |
| ControlFunctions.Escape | ecma48/controlFunctions.kt:233 | `\uXXXX` is six printable characters starting with `\u` |
| ControlFunctions.EscapeValue | ecma48/controlFunctions.kt:233 | the four hex digits are lowercase and encode the character's code |
| ControlFunctions.HexRoundTrip | ecma48/controlFunctions.kt:233 | each hex digit reads back as its value |
| ControlFunctions.PrintChar | ecma48/controlFunctions.kt:222-234 | a character is copied exactly when it is outside the four ranges; otherwise it becomes a six-character `\u` escape whose hex digits spell its code; either way the output holds no character of the ranges |
| ControlFunctions.Printable | ecma48/controlFunctions.kt:231-235 | the result is never shorter than the input |
| ControlFunctions.PrintableConcat | ecma48/controlFunctions.kt:231-235 | `printable` works character by character, in order |
| ControlFunctions.PrintableIsPrintable | ecma48/controlFunctions.kt:231-235 | the result contains no character of the four ranges |
| ControlFunctions.PrintableIdentity | ecma48/controlFunctions.kt:231-235 | a string with no such character is returned unchanged |
| Ecma48Reading.ScanParameters | ecma48/controlFunctions.kt:300-306 | the parameter loop stops at the first byte outside 0x30..0x3F, after a run of parameter bytes |
| Ecma48Reading.ScanIntermediates | ecma48/controlFunctions.kt:310-317 | the intermediate loop stops at the first byte outside 0x20..0x25, after a run of intermediates |
| Ecma48Reading.Read | ecma48/controlFunctions.kt:273-331 | one `next()` on pending input fails with `NoSuchElementException` exactly on empty input, and otherwise consumes a non-empty prefix and leaves the rest |
| Ecma48Reading.ReadControlSequence | ecma48/controlFunctions.kt:294-331 | after `ESC [` the reader always yields a token or the exception of `single()`, and consumes a prefix |
| Ecma48Reading.ReadFinalByte | ecma48/controlFunctions.kt:319-330 | once a final byte is in hand the reader yields a token or the exception, consuming through the final byte or pushing it back |
| Ecma48Reading.ReadSingle | ecma48/controlFunctions.kt:275-280 | a first byte other than ESC consumes exactly one byte, giving the C0 function below 0x20 and the one-character string otherwise |
| Ecma48Reading.ReadEscAtEnd | ecma48/controlFunctions.kt:283 | ESC at the end of the input yields `C0Function.ESC` |
| Ecma48Reading.ReadEscLiteral | ecma48/controlFunctions.kt:285-288 | ESC and then a byte naming no C1 function yield a literal ESC, and that byte starts the next token |
| Ecma48Reading.ReadRecognised | ecma48/controlFunctions.kt:298-330 | a recognised sequence carries exactly the collected parameter bytes and intermediates, in order, and the final byte, and consumes through it |
| Ecma48Reading.ReadFallback | ecma48/controlFunctions.kt:294-328 | a sequence cut off by the end, or naming no function, yields a literal ESC and makes everything after the ESC pending again in order |
| Ecma48Reading.ReadThrows | ecma48/controlFunctions.kt:320-323 | `next()` throws `IllegalArgumentException` exactly for a final in 0x40..0x6F after two or more intermediates |
| Ecma48Reading.ReadLossless | ecma48/controlFunctions.kt:273-331 | when the C1 introducer is 7-bit, an emitted token's rendering followed by what stays pending is the input |
| Ecma48Reading.ControlSequenceLossless | ecma48/controlFunctions.kt:294-331 | the same for every outcome after `ESC [` |
| Ecma48Reading.CutOff | ecma48/controlFunctions.kt:294-316 | a sequence cut off while reading parameters or intermediates gives back everything after the ESC, and that contains no ESC before its end |
| Ecma48Reading.ReadAll | ecma48/controlFunctions.kt:273-333 | calling `next()` until it throws stops on an exception |
| Ecma48Reading.ReadAllLossless | ecma48/controlFunctions.kt:273-333 | on 7-bit input, reading everything until `NoSuchElementException` returns tokens that render back to the whole input |
| Ecma48Reading.ReadAllLiteral | ecma48/controlFunctions.kt:278 | a printable first character is a literal token, followed by the tokens of the rest |
| Ecma48Reading.ReadAllPrintable | ecma48/controlFunctions.kt:278 | input without control characters reads as one literal token per character |
| Ecma48Reading.ReadLetter | tests/Ecma48ReaderTest.kt:10-15 | `A` reads as the literal `A` |
| Ecma48Reading.ReadBell | tests/Ecma48ReaderTest.kt:17-22 | BEL reads as `C0Function.BEL` |
| Ecma48Reading.ReadSgr | tests/Ecma48ReaderTest.kt:24-32 | `ESC [31;42m` reads as the SGR sequence with parameter bytes `31;42` |
| Ecma48Reading.ReadEch | tests/Ecma48ReaderTest.kt:40-46 | `ESC [99;99X` is the standard function with final 0x58 (ECH), and renders exactly as read |
| Ecma48Reading.ReadCutSequence | tests/Ecma48ReaderTest.kt:48-58 | the truncated `ESC [31;` yields a literal ESC and pushes back `[31;` |
| Ecma48Reading.ReadTruncated | tests/Ecma48ReaderTest.kt:48-58 | reading the truncated `ESC [31;` to the end yields its five characters as literals, which append to the input |
| Ecma48Reading.LosslessStep | ecma48/controlFunctions.kt:260 | one step of the reader keeps "tokens, then buffer, spell the consumed source" |
| Ecma48Reading.Ecma48Reader.constructor | ecma48/controlFunctions.kt:249-254 | a fresh reader has an empty buffer, has read nothing and is not closed |
| Ecma48Reading.Ecma48Reader.ReadNext | ecma48/controlFunctions.kt:256-258 | `readNext()` returns -1 once closed, otherwise the next source character, or -1 while closing at the end |
| Ecma48Reading.Ecma48Reader.NextByte | ecma48/controlFunctions.kt:260 | `nextByte()` takes the buffer's head first and only then the source; it is null exactly when both are exhausted |
| Ecma48Reading.Ecma48Reader.Next | ecma48/controlFunctions.kt:273-331 | `next()` returns `Read`'s outcome on the pending input and leaves exactly its rest pending; it keeps losslessness short of the `single()` exception |
| Ecma48Reading.Ecma48Reader.ReadToken | ecma48/controlFunctions.kt:273-331 | the body of `next()` is `Read` on the pending input |
| Ecma48Reading.Ecma48Reader.ReadSequenceTail | ecma48/controlFunctions.kt:294-331 | the part after `ESC [` is `ReadControlSequence` |
| Ecma48Reading.Ecma48Reader.ReadAfterParameters | ecma48/controlFunctions.kt:308-331 | the part after the parameters is `ReadControlSequence` |
| Ecma48Reading.Ecma48Reader.PushBackCut | ecma48/controlFunctions.kt:312-316 | on the end of input inside the intermediates, the second byte, parameters and intermediates go back into the buffer |
| Ecma48Reading.Ecma48Reader.Unread | ecma48/controlFunctions.kt:324-327 | pushback only appends to an empty buffer, and keeps ESC only at its end |
| Ecma48Reading.Ecma48Reader.ReadFinal | ecma48/controlFunctions.kt:319-330 | the lookup with the final byte is `ReadFinalByte` |
| Ecma48Reading.Ecma48Reader.ReadParameterBytes | ecma48/controlFunctions.kt:298-306 | the loop collects exactly the maximal run of parameter bytes, or pushes back on the end of input |
| Ecma48Reading.Ecma48Reader.ReadIntermediateBytes | ecma48/controlFunctions.kt:308-317 | the loop collects exactly the maximal run of intermediates |
| Ecma48Reading.HasNextAndFailure | ecma48/controlFunctions.kt:333 | `next()` fails exactly when buffer and source are exhausted; `hasNext()` false implies it fails; `hasNext()` is true just before the end is seen, although `next()` then fails |
| Ecma48Reading.Ecma48Reader.HasNext | ecma48/controlFunctions.kt:333 | `hasNext()` is false only once the source is closed and the buffer is empty, when nothing is pending |
| RenditionTable.NewColor | ansi/GraphicsRendition.kt:228 | `Color(r, g, b)` exists exactly when all three components are in 0..255, and holds them |
| RenditionTable.Ansi256Colors | ansi/GraphicsRendition.kt:28-39 | the palette has 256 entries, all colours with components in 0..255 |
| RenditionTable.PaletteEntry | ansi/GraphicsRendition.kt:28-39 | entries 0..15 are the simple colours in order, 16..231 the 6x6x6 cube in steps of 51, 232..255 the grays `10k+8` |
| RenditionTable.CoerceIn | ansi/GraphicsRendition.kt:97 | `coerceIn` lands in the range, keeps a value inside it, and clamps to the nearer end |
| RenditionTable.Entry | ansi/GraphicsRendition.kt:244-341 | a slot exists exactly for 0..107 outside the empty slots 56, 57, 60..72, 76..89, 98 and 99 |
| RenditionTable.TableShape | ansi/GraphicsRendition.kt:237-341 | exactly slots 38, 48 and 58 parse and write a colour, for foreground, background and underline colour |
| RenditionTable.ResetSlot | ansi/GraphicsRendition.kt:244-246 | only slot 0 is about the `RESET` attribute |
| RenditionTable.FontSlots | ansi/GraphicsRendition.kt:256-268 | slots 10..20 are the fonts `DEFAULT`, `ALT_1`..`ALT_9`, `GOTHIC` |
| RenditionTable.IndexOfInstruction | ansi/GraphicsRendition.kt:80 | `entries.indexOf` finds a slot holding the instruction, or -1 when no slot does |
| RenditionTable.IndexOfEntry | ansi/GraphicsRendition.kt:80 | `indexOf` of a slot's own instruction is that slot: no instruction occurs twice in the table |
| RenditionTable.ResetInstruction | ansi/GraphicsRendition.kt:237 | the instruction in slot 0 is the only one of the `RESET` attribute |
| RenditionTable.SimpleIndexOf | ansi/GraphicsRendition.kt:168-185 | the sixteen simple colours are distinct |
| RenditionTable.ParseColorFrom | ansi/GraphicsRendition.kt:226-232 | `parseColor` consumes a prefix of the arguments, at least one unless there are none |
| RenditionTable.ParseColorCases | ansi/GraphicsRendition.kt:226-232 | selector 2 gives the RGB colour or throws on a component out of range or missing; selector 5 gives the clamped palette entry; another selector is consumed and gives null |
| RenditionTable.WriteColorOf | ansi/GraphicsRendition.kt:233-235 | `writeColor` writes four numbers for a colour and none for anything else |
| RenditionTable.WriteValue | ansi/GraphicsRendition.kt:222-235 | an encoder writes nothing, except in a colour slot holding a colour, where it writes four numbers |
| RenditionTable.WriteColorRoundTrip | ansi/GraphicsRendition.kt:226-235 | `parseColor` reads back exactly what `writeColor` wrote, followed by anything |
| RenditionTable.PaletteRewritten | ansi/GraphicsRendition.kt:226-235 | palette input `5;21` re-serialises as `2;0;0;255` |
| RenditionTable.ReadValue | ansi/GraphicsRendition.kt:220-241 | an instruction's decoder consumes a prefix of the arguments |
| GraphicsRenditions.Parse | ansi/GraphicsRendition.kt:18-27 | the `parse` loop appends exactly `Decode`'s pairs |
| GraphicsRenditions.Decode | ansi/GraphicsRendition.kt:18-27 | `parse` yields at most one pair per argument |
| GraphicsRenditions.DecodeSkips | ansi/GraphicsRendition.kt:22 | a code outside the table or on an empty slot is skipped |
| GraphicsRenditions.DecodeFixed | ansi/GraphicsRendition.kt:22-24 | a fixed slot appends its constant and consumes nothing else |
| GraphicsRenditions.DecodeExtended | ansi/GraphicsRendition.kt:20-25 | a colour slot either appends what `parseColor` read or, when it threw, skips the code while keeping what was consumed |
| GraphicsRenditions.DecodeColor | ansi/GraphicsRendition.kt:22-24 | a colour slot followed by `2;r;g;b` appends that colour |
| GraphicsRenditions.DecodeUnknownSelector | ansi/GraphicsRendition.kt:231 | a colour slot with an unknown selector still appends its instruction, with null |
| GraphicsRenditions.DecodeValues | ansi/GraphicsRendition.kt:18-27 | every parsed pair holds its slot's constant, or for a colour slot a colour or null |
| GraphicsRenditions.DecodeFromTable | ansi/GraphicsRendition.kt:18-27 | every parsed instruction comes from the table |
| GraphicsRenditions.DecodeFixedRun | ansi/GraphicsRendition.kt:18-27 | a list of fixed-slot codes parses to their pairs one for one |
| GraphicsRenditions.Get | ansi/GraphicsRendition.kt:45-52 | the `get` loop (matching by attribute) returns `LatestSetting` |
| GraphicsRenditions.LatestSetting | ansi/GraphicsRendition.kt:45-52 | a non-null answer is the value of some pair for that attribute, and an attribute never set gives null |
| GraphicsRenditions.LatestIsLastSetting | ansi/GraphicsRendition.kt:45-52 | `get(a)` is the value of the last pair for `a` with no later `RESET` |
| GraphicsRenditions.LatestWithoutSetting | ansi/GraphicsRendition.kt:45-52 | and null when there is no such pair |
| GraphicsRenditions.GetAsWritten | ansi/GraphicsRendition.kt:48 | `get` as written returns null for every rendition and attribute |
| GraphicsRenditions.FindAttr | ansi/GraphicsRendition.kt:56 | the map's entry for an attribute is its first position holding that attribute |
| GraphicsRenditions.Lookup | ansi/GraphicsRendition.kt:56-62 | on entries with distinct attributes the lookup gives the value of the entry for that attribute, and null for an attribute without an entry |
| GraphicsRenditions.Put | ansi/GraphicsRendition.kt:60 | `state[a] = p` updates the entry for `p`'s attribute in place, or puts a new one last; every other entry keeps its position |
| GraphicsRenditions.PutFindAttr | ansi/GraphicsRendition.kt:60 | after storing a pair its attribute has an entry, and every other attribute has one exactly when it had one before |
| GraphicsRenditions.Normalize | ansi/GraphicsRendition.kt:54-65 | `normalized` is never longer than the list, and is non-empty for a non-empty list |
| GraphicsRenditions.Normalized | ansi/GraphicsRendition.kt:54-65 | the `normalized` loop builds exactly `Normalize`'s list |
| GraphicsRenditions.NormalizeSnoc | ansi/GraphicsRendition.kt:58-61 | one more pair: a `RESET` clears the map first, then the pair is stored under its attribute |
| GraphicsRenditions.PutLookup | ansi/GraphicsRendition.kt:60 | after storing a pair, its attribute maps to its value and every other attribute is unchanged |
| GraphicsRenditions.NormalizeCanonical | ansi/GraphicsRendition.kt:54-65 | `normalized` holds at most one entry per attribute, and a `RESET` only first |
| GraphicsRenditions.NormalizeOrder | ansi/GraphicsRendition.kt:54-65 | `normalized` keeps the map's order: every entry's attribute was set after the last `RESET`, entries stand in the order their attributes were first set there, and every attribute set there has an entry |
| GraphicsRenditions.NormalizeLookup | ansi/GraphicsRendition.kt:54-65 | each attribute's entry in `normalized` is what `get` reports on the original |
| GraphicsRenditions.CanonicalLatest | ansi/GraphicsRendition.kt:45-65 | on a canonical list `get` is the map lookup |
| GraphicsRenditions.NormalizeGet | ansi/GraphicsRendition.kt:45-65 | `get` gives the same answer on `normalized` as on the original, for every attribute |
| GraphicsRenditions.CanonicalFixpoint | ansi/GraphicsRendition.kt:54-65 | a canonical list is its own normalization |
| GraphicsRenditions.NormalizeIdempotent | ansi/GraphicsRendition.kt:54-65 | `normalized` is idempotent |
| GraphicsRenditions.NormalizeResetHead | ansi/GraphicsRendition.kt:59-60 | `normalized` begins with `RESET` exactly when a `RESET` occurred |
| GraphicsRenditions.NormalizeMembers | ansi/GraphicsRendition.kt:58-62 | every entry of `normalized` is a pair of the original |
| GraphicsRenditions.PairStrings | ansi/GraphicsRendition.kt:79-83 | each pair's text, in order |
| GraphicsRenditions.PairString | ansi/GraphicsRendition.kt:80-82 | a pair's text starts with its slot index, and is exactly that index when its encoder writes nothing |
| GraphicsRenditions.ToString | ansi/GraphicsRendition.kt:78-84 | `toString` is empty exactly for a rendition without pairs, and starts with the first pair's text |
| GraphicsRenditions.Compile | ansi/GraphicsRendition.kt:77 | `compile` starts with `ESC [` and ends with `m` |
| GraphicsRenditions.PairParams | ansi/GraphicsRendition.kt:80-82 | a pair writes its slot first |
| GraphicsRenditions.PairStringParams | ansi/GraphicsRendition.kt:79-83 | a pair's text is its slot and its encoder's output in decimal, joined by `;` |
| GraphicsRenditions.ToStringParams | ansi/GraphicsRendition.kt:78-84 | `toString` is the decimal SGR parameters of all pairs joined by `;` |
| GraphicsRenditions.CompileParams | ansi/GraphicsRendition.kt:77 | `compile` of a normalized rendition is `ESC [`, its parameters in decimal joined by `;`, then `m` |
| GraphicsRenditions.Reread | ansi/GraphicsRendition.kt:226-235 | reading a written pair back keeps its instruction, and gives the pair itself whenever `parse` could have produced it |
| GraphicsRenditions.Reparse | ansi/GraphicsRendition.kt:18-27 | every pair read back, in order |
| GraphicsRenditions.DecodePairParams | ansi/GraphicsRendition.kt:18-27 | parsing what one pair writes, then anything, reads that pair back, then the rest |
| GraphicsRenditions.ParamsRoundTrip | ansi/GraphicsRendition.kt:78-84 | parsing the parameters `toString` writes gives back every pair, with fixed slots holding their constants |
| GraphicsRenditions.ParseToString | ansi/GraphicsRendition.kt:18-27 | `parse(toString())` is the identity on parsed renditions whose colour slots hold colours |
| GraphicsRenditions.TestSlots | ansi/GraphicsRendition.kt:244-280 | slots 0, 1, 22 and 31 are `RESET`, bold, normal intensity and red foreground |
| GraphicsRenditions.ParseBold | tests/GraphicsRenditionTest.kt:12-16 | `parse(1)` holds bold, and `get(INTENSITY)` is `BOLD` |
| GraphicsRenditions.ParseBoldRed | tests/GraphicsRenditionTest.kt:18-23 | `parse(1, 31)` holds bold and then red foreground |
| GraphicsRenditions.GetBoldRed | tests/GraphicsRenditionTest.kt:18-23 | on those pairs `get` gives `BOLD` and red |
| GraphicsRenditions.ParseReset | tests/GraphicsRenditionTest.kt:25-30 | after `1;31;0` both intensity and foreground are null |
| GraphicsRenditions.ParseForegroundRgb | tests/GraphicsRenditionTest.kt:32-36 | `38;2;255;100;50` sets that foreground |
| GraphicsRenditions.ParseBackgroundRgb | tests/GraphicsRenditionTest.kt:38-42 | `48;2;10;20;30` sets that background |
| GraphicsRenditions.ParseNormalIntensity | tests/GraphicsRenditionTest.kt:50-54 | after `1;22` the intensity is `NORMAL` |
| GraphicsRenditions.ParseComponentOutOfRange | ansi/GraphicsRendition.kt:25 | a colour component out of range skips only its code; what it consumed stays consumed and the next code is parsed |
| GraphicsRenditions.ParseShortColor | ansi/GraphicsRendition.kt:25 | a colour cut short by the end of the arguments appends nothing |
| GraphicsRenditions.ParseUnknownSelector | ansi/GraphicsRendition.kt:231 | `58;7;1` appends underline colour with null, then bold |
| RenditionMutators.Then | ansi/GraphicsRendition.kt:67-70 | `then` keeps the old pairs as a prefix and appends exactly the one given |
| RenditionMutators.ThenIndex | ansi/GraphicsRendition.kt:71-74 | `then(index)` fails exactly on an index with no slot, and otherwise appends the slot's instruction with null |
| RenditionMutators.ThenGet | ansi/GraphicsRendition.kt:67-70 | after `then`, `get` reports the new value for its attribute, null for all others after a reset, and the old answer otherwise |
| RenditionMutators.ThenNormalize | ansi/GraphicsRendition.kt:67-70 | `then` followed by `normalized` is `normalized` followed by storing the new pair |
| RenditionMutators.ThenFromTable | ansi/GraphicsRendition.kt:67-70 | `then` with a table instruction keeps the rendition drawn from the table |
| RenditionMutators.Mutator.ColorIndex | ansi/GraphicsRendition.kt:118-143 | the colour mutators use slot 38, 48 or 58 |
| RenditionMutators.Mutator.Intended | ansi/GraphicsRendition.kt:87-166 | what each mutator's name says it sets; only `reset` is about the `RESET` attribute |
| RenditionMutators.ColorOf | ansi/GraphicsRendition.kt:118-143 | a `Color` overload uses its colour; an `(r, g, b)` overload uses `Color(r, g, b)`, which may throw |
| RenditionMutators.ThenColor | ansi/GraphicsRendition.kt:118-143 | a colour mutator succeeds exactly when its colour exists |
| RenditionMutators.Mutator.Index | ansi/GraphicsRendition.kt:87-166 | every mutator other than the colour ones names a slot inside the table that is not a colour slot; `font(type)` lands in 10..19 |
| RenditionMutators.Mutator.IndexAsWritten | ansi/GraphicsRendition.kt:123 | the slot as written differs from the corrected one exactly for `backgroundRed`, whose 431 is outside the table |
| RenditionMutators.Apply | ansi/GraphicsRendition.kt:67-166 | a mutator that succeeds appends one pair after the old ones; a colour mutator succeeds exactly when its colour exists and appends it in its slot; any other succeeds exactly when its slot exists and appends null |
| RenditionMutators.MutatorSlot | ansi/GraphicsRendition.kt:87-166 | the slot each mutator other than the colour ones hands to `then(index)` holds what its name says (with `backgroundRed` at 41) |
| RenditionMutators.ApplyIndexed | ansi/GraphicsRendition.kt:87-166 | such a mutator never fails, and appends its instruction with null, with `backgroundRed` taken at slot 41, as corrected under Findings |
| RenditionMutators.MutatorGet | ansi/GraphicsRendition.kt:71-74 | after such a mutator, `get` reports null for the attribute it set, because `then(index)` stores null |
| RenditionMutators.ApplyColor | ansi/GraphicsRendition.kt:118-143 | a colour mutator appends its colour for its layer and `get` then reports it; an `(r, g, b)` overload fails exactly when a component is out of range |
| RenditionMutators.ApplyFromTable | ansi/GraphicsRendition.kt:67-166 | every mutator keeps a rendition drawn from the table |
| RenditionMutators.FontClamps | ansi/GraphicsRendition.kt:97 | `font(type)` clamps to slots 10..19: below 0 it is `resetFont()`, above 9 it is `font(9)`, never gothic |
| RenditionMutators.UnhideIsNoConceal | ansi/GraphicsRendition.kt:106-107 | `reveal()` and `noConceal()` both append the conceal-off slot 28 |
| RenditionMutators.BackgroundRedAsWritten | ansi/GraphicsRendition.kt:123 | `then(431)` fails because 431 is outside the table, while slot 41 holds red background |
| RenditionMutators.ParamsSnoc | ansi/GraphicsRendition.kt:78-84 | appending a pair appends its parameters |
| RenditionMutators.ThenParams | ansi/GraphicsRendition.kt:67-84 | `then` appends the slot's code and its encoded value to what `toString` writes |
| RenditionMutators.MutatorParams | ansi/GraphicsRendition.kt:71-84 | a mutator other than the colour ones adds exactly its slot to the SGR parameters |
| RenditionMutators.ColorMutatorParams | ansi/GraphicsRendition.kt:118-143 | a colour mutator adds its slot, `2` and its three components |
| RenditionMutators.TwoMutatorParams | ansi/GraphicsRendition.kt:71-84 | two such mutators add their two slots |
| RenditionMutators.TwoMutatorsNormalized | ansi/GraphicsRendition.kt:54-74 | two such mutators for different attributes, the second not `reset`, leave an empty rendition normalized |
| RenditionMutators.BoldRedParams | tests/GraphicsRenditionTest.kt:44-48 | `bold().foregroundRed()` has the parameters 1 and 31 |
| RenditionMutators.BoldRedNormalized | tests/GraphicsRenditionTest.kt:44-48 | and is already normalized |
| RenditionMutators.CompileBoldRed | tests/GraphicsRenditionTest.kt:44-48 | `GraphicsRendition().bold().foregroundRed().compile()` is `ESC [1;31m` |

## Left out

- Reader I/O: `java.io.Reader.read` becomes a sequence of character codes with a cursor. `close()` and `AutoCloseable` are not modelled.
- The incidental machinery is not modelled:
  - lazy memoisation of `str`;
  - `hashCode` and `hash`;
  - the `CharSequence` delegation (`length`, `get`, `subSequence`);
  - `C1Function.to8BitString`.
- Floating point is not modelled:
  - the `DoubleArray` constructor of `ControlSequence`;
  - the `Double` type of `parameters`.

  `parameters` yields naturals, so the precision of very long digit strings is not
  modelled. The serialisation test (tests/Ecma48ReaderTest.kt:34-38) goes through that
  constructor and has no lemma. `ReadEch` and `ReadLossless` state how a sequence renders.
- The test that chains the reader into `parse` (tests/GraphicsRenditionTest.kt:56-65) converts Doubles to Int. It is covered piecewise by `ReadSgr`, `ParametersExample` and `ParseBoldRed`, not as one lemma.
- `ControlFunctions.ControlSequence.Equals`, `ControlFunctions.StandardNeverEquals`: the `this === other` shortcut of `equals` is left out. Object identity does not exist for datatype values.
- Ecma48Reading.ReadLossless: it is proved only when every recognised C1 or CSI introducer is 7-bit. An 8-bit introducer renders back in its 7-bit form, so losslessness does not hold for it.
- Ecma48Reading.Ecma48Reader.Next: the `IllegalArgumentException` thrown by `single()` is an outcome of the model. The bytes consumed before it are dropped, as in the code.
- GraphicsRenditions.ParseToString: the round trip is stated only for pairs whose colour slots hold colours. A colour slot holding null is written as its bare code, and reading it back consumes the next number as a selector. So those pairs do not round-trip.
- RenditionMutators.Mutator.Intended: `reveal()` is named `unhide`, because `reveal` is a Dafny keyword.
- The other files of the repository are not part of this model: `AnsiSequence.kt`, `ansi/ControlSequence.kt`, `ansi/ControlSequenceParser.kt`, `Emitter.kt`, `test.kt`.
- The `null` intermediate array accepted by `CSFunction[code, intermediate]` behaves like an empty one in every branch. Only arrays are modelled.
- The doc comment of `ControlSequence` gives different ranges from the code:
  - final bytes 0x40..0xFE against the code's 0x70..0x7F for private functions;
  - intermediates 0x20..0x2F (ECMA-48 section 5.4) against the code's 0x20..0x25 (ecma48/controlFunctions.kt:127).

  The model follows the code.

## Findings

| source | as written | input that shows it | evidently intended | confidence | as-written member | corrected member |
|---|---|---|---|---|---|---|
| ansi/GraphicsRendition.kt:48 | `get` compares the `Instruction` (a data class) with the `Attribute`, which is never equal, so `get` always returns null | `parse(listOf(1))[Attribute.INTENSITY]` is null, not `BOLD` | compare `instruction.attribute`, as `normalized` does at line 60 and as the unit tests expect | not executed | GraphicsRenditions.GetAsWritten | GraphicsRenditions.Get |
| ansi/GraphicsRendition.kt:123 | `backgroundRed()` calls `then(431)`, which is outside the 108-slot table, so `entries[431]` throws | `GraphicsRendition().backgroundRed()` | `then(41)`, the red background slot, between `backgroundBlack` (40) and `backgroundGreen` (42) | not executed | RenditionMutators.BackgroundRedAsWritten | RenditionMutators.MutatorSlot |
