/**
 * `GraphicsRendition`: an ordered list of (instruction, value) pairs, built
 * by `parse` from SGR parameters or by the mutators, queried with `get`,
 * collapsed by `normalized` and serialised by `toString` and `compile`.
 *
 * A rendition never changes once built (`then` copies the list into a new
 * object), so it is a value here.
 */
module GraphicsRenditions {
  import opened Wrappers
  import opened Text
  import opened RenditionTable

  /** One element of `instructions`: an instruction of the table and the value it sets. */
  datatype Pair = Pair(instruction: Instruction, value: Value)

  datatype GraphicsRendition = GraphicsRendition(instructions: seq<Pair>)

  /** The attribute a pair sets. */
  function Attr(p: Pair): Attribute
  {
    p.instruction.attribute
  }

  /** Every pair holds an instruction of the table, as every rendition the program can build does. */
  predicate FromTable(l: seq<Pair>)
  {
    forall k :: 0 <= k < |l| ==> InTable(l[k].instruction)
  }

  /** `instruction == Instruction.RESET` */
  predicate IsReset(p: Pair)
  {
    p.instruction == RESET_INSTRUCTION
  }

  // ---------------------------------------------------------------- parse

  /**
   * What `parse` appends for the arguments `args`: each code names a slot;
   * an empty slot or an index outside the table is skipped; otherwise the
   * slot's decoder runs on the following arguments, and the pair is
   * appended unless the decoder threw, in which case what it consumed
   * stays consumed.
   */
  function Decode(args: seq<int>): (r: seq<Pair>)
    ensures |r| <= |args|
    decreases |args|
  {
    if args == [] then []
    else if Entry(args[0]).None? then Decode(args[1..])
    else
      var instruction := InstructionAt(args[0]);
      var read := ReadValue(instruction, args[1..]);
      match read.decoded
      case Threw => Decode(read.rest)
      case Got(v) => [Pair(instruction, v)] + Decode(read.rest)
  }

  /** `GraphicsRendition.parse(args)`: the iterator is the sequence of arguments it has not yet delivered. */
  method Parse(args: seq<int>) returns (r: GraphicsRendition)
    ensures r.instructions == Decode(args)
  {
    var instructions: seq<Pair> := [];
    var rest := args;
    while rest != []
      invariant instructions + Decode(rest) == Decode(args)
      decreases |rest|
    {
      var code := rest[0];
      var here := rest;
      rest := rest[1..];
      if Entry(code).None? {
        continue;
      }
      var instruction := InstructionAt(code);
      var read := ReadValue(instruction, rest);
      rest := read.rest;
      if read.decoded.Threw? {
        continue;
      }
      assert Decode(here) == [Pair(instruction, read.decoded.value)] + Decode(rest);
      instructions := instructions + [Pair(instruction, read.decoded.value)];
    }
    assert instructions + [] == instructions;
    r := GraphicsRendition(instructions);
  }

  /** A negative code, a code past the table or an empty slot is skipped on its own. */
  lemma DecodeSkips(code: int, rest: seq<int>)
    requires Entry(code).None?
    ensures Decode([code] + rest) == Decode(rest)
  {
    assert ([code] + rest)[1..] == rest;
  }

  /** A slot other than 38, 48 and 58 appends its fixed value and consumes nothing more. */
  lemma DecodeFixed(code: InstructionCode, rest: seq<int>)
    requires code != 38 && code != 48 && code != 58
    ensures InstructionAt(code).read.Constant?
    ensures Decode([code] + rest) == [Pair(InstructionAt(code), InstructionAt(code).read.value)] + Decode(rest)
  {
    TableShape(code);
    assert ([code] + rest)[1..] == rest;
  }

  /** Codes 38, 48 and 58 run `parseColor()`; when it throws only this code is lost, along with what it consumed. */
  lemma DecodeExtended(code: InstructionCode, rest: seq<int>)
    requires code == 38 || code == 48 || code == 58
    ensures var read := ParseColorFrom(rest);
      Decode([code] + rest) ==
        if read.decoded.Threw? then Decode(read.rest) else [Pair(InstructionAt(code), read.decoded.value)] + Decode(read.rest)
  {
    TableShape(code);
    assert ([code] + rest)[1..] == rest;
  }

  /** A colour written in the `2;r;g;b` form after 38, 48 or 58 decodes to that colour. */
  lemma DecodeColor(code: InstructionCode, c: Color, rest: seq<int>)
    requires code == 38 || code == 48 || code == 58
    ensures Decode([code] + WriteColorOf(OfColor(c)) + rest) == [Pair(InstructionAt(code), OfColor(c))] + Decode(rest)
  {
    var args := WriteColorOf(OfColor(c)) + rest;
    assert [code] + WriteColorOf(OfColor(c)) + rest == [code] + args;
    DecodeExtended(code, args);
    WriteColorRoundTrip(c, rest);
  }

  /** After 38, 48 or 58, a selector other than 2 and 5 yields `null` and consumes only itself. */
  lemma DecodeUnknownSelector(code: InstructionCode, selector: int, rest: seq<int>)
    requires code == 38 || code == 48 || code == 58
    requires selector != 2 && selector != 5
    ensures Decode([code, selector] + rest) == [Pair(InstructionAt(code), Null)] + Decode(rest)
  {
    var args := [selector] + rest;
    assert [code, selector] + rest == [code] + args;
    DecodeExtended(code, args);
    ParseColorCases(args);
    assert args[1..] == rest;
  }

  /** The values a slot's decoder can yield. */
  predicate Decodable(p: Pair)
  {
    match p.instruction.read
    case Constant(v) => p.value == v
    case ParseColor => p.value.OfColor? || p.value == Null
  }

  /** Every pair `parse` produces holds what its slot's decoder yields: the fixed value, or a colour or `null`. */
  lemma {:induction false} DecodeValues(args: seq<int>)
    ensures forall p :: p in Decode(args) ==> Decodable(p)
    decreases |args|
  {
    if args != [] {
      if Entry(args[0]).None? {
        DecodeValues(args[1..]);
      } else {
        var read := ReadValue(InstructionAt(args[0]), args[1..]);
        DecodeValues(read.rest);
      }
    }
  }

  /** Prepending a pair of the table keeps a list drawn from the table. */
  lemma FromTableCons(p: Pair, l: seq<Pair>)
    requires InTable(p.instruction) && FromTable(l)
    ensures FromTable([p] + l)
  {
    assert forall k :: 0 < k <= |l| ==> ([p] + l)[k] == l[k - 1];
  }

  /** Every pair `parse` produces holds an instruction of the table. */
  lemma {:induction false} DecodeFromTable(args: seq<int>)
    ensures FromTable(Decode(args))
    decreases |args|
  {
    if args != [] {
      if Entry(args[0]).None? {
        DecodeFromTable(args[1..]);
      } else {
        var instruction := InstructionAt(args[0]);
        var read := ReadValue(instruction, args[1..]);
        IndexOfEntry(args[0]);
        DecodeFromTable(read.rest);
        if read.decoded.Got? {
          FromTableCons(Pair(instruction, read.decoded.value), Decode(read.rest));
        }
      }
    }
  }

  /** A code whose slot has a fixed value. */
  predicate FixedCode(code: int)
  {
    Entry(code).Some? && Entry(code).value.read.Constant?
  }

  /** The pair a fixed-value code decodes to. */
  function FixedPair(code: int): Pair
    requires FixedCode(code)
  {
    Pair(InstructionAt(code), InstructionAt(code).read.value)
  }

  /** The pairs a run of fixed-value codes decodes to, one per code. */
  function FixedPairs(codes: seq<int>): (pairs: seq<Pair>)
    requires forall i :: 0 <= i < |codes| ==> FixedCode(codes[i])
    ensures |pairs| == |codes|
    ensures forall i :: 0 <= i < |codes| ==> pairs[i] == FixedPair(codes[i])
  {
    if codes == [] then [] else [FixedPair(codes[0])] + FixedPairs(codes[1..])
  }

  /** Arguments that are all fixed-value codes decode one pair per argument. */
  lemma {:induction false} DecodeFixedRun(args: seq<int>)
    requires forall i :: 0 <= i < |args| ==> FixedCode(args[i])
    ensures Decode(args) == FixedPairs(args)
    decreases |args|
  {
    if args != [] {
      var rest := args[1..];
      assert args == [args[0]] + rest;
      TableShape(args[0]);
      DecodeFixed(args[0], rest);
      DecodeFixedRun(rest);
    }
  }

  // ---------------------------------------------------------------- get

  /**
   * The value `get(a)` reports: that of the last pair whose instruction
   * has the attribute `a`, unless a `RESET` comes after it.
   */
  function LatestSetting(pairs: seq<Pair>, a: Attribute): (v: Value)
    ensures v != Null ==> exists k :: 0 <= k < |pairs| && Attr(pairs[k]) == a && pairs[k].value == v
    ensures (forall k :: 0 <= k < |pairs| ==> Attr(pairs[k]) != a) ==> v == Null
  {
    if pairs == [] then Null
    else
      var p := pairs[|pairs| - 1];
      if Attr(p) == a then p.value
      else if IsReset(p) then Null
      else LatestSetting(pairs[..|pairs| - 1], a)
  }

  /**
   * `get(attribute)`, matching each pair by its instruction's attribute
   * (the comparison the source's callers rely on; see `GetAsWritten`).
   * The cast `value as? T` always succeeds: every slot yields values of its
   * attribute's type, or `null`.
   */
  method Get(r: GraphicsRendition, attribute: Attribute) returns (result: Value)
    ensures result == LatestSetting(r.instructions, attribute)
  {
    var pairs := r.instructions;
    result := Null;
    for i := 0 to |pairs|
      invariant result == LatestSetting(pairs[..i], attribute)
    {
      var p := pairs[i];
      assert pairs[..i + 1] == pairs[..i] + [p];
      if p.instruction.attribute == attribute {
        result := p.value;
      } else if p.instruction == RESET_INSTRUCTION {
        result := Null;
      }
    }
    assert pairs[..|pairs|] == pairs;
  }

  /** The last pair with attribute `a` and no later `RESET` or pair with attribute `a`. */
  predicate IsLastSetting(pairs: seq<Pair>, a: Attribute, j: int)
  {
    0 <= j < |pairs| && Attr(pairs[j]) == a
    && forall k :: j < k < |pairs| ==> Attr(pairs[k]) != a && !IsReset(pairs[k])
  }

  /** `get` reports the value of the last setting... */
  lemma {:induction false} LatestIsLastSetting(pairs: seq<Pair>, a: Attribute, j: int)
    requires IsLastSetting(pairs, a, j)
    ensures LatestSetting(pairs, a) == pairs[j].value
    decreases |pairs|
  {
    if j < |pairs| - 1 {
      var t := pairs[..|pairs| - 1];
      assert IsLastSetting(t, a, j) by {
        forall k | j < k < |t| ensures Attr(t[k]) != a && !IsReset(t[k]) {
          assert t[k] == pairs[k];
        }
      }
      LatestIsLastSetting(t, a, j);
    }
  }

  /** ... and `null` when there is none. */
  lemma {:induction false} LatestWithoutSetting(pairs: seq<Pair>, a: Attribute)
    requires forall j :: 0 <= j < |pairs| ==> !IsLastSetting(pairs, a, j)
    ensures LatestSetting(pairs, a) == Null
    decreases |pairs|
  {
    if pairs != [] {
      var n := |pairs| - 1;
      var t := pairs[..n];
      assert !IsLastSetting(pairs, a, n);
      if !IsReset(pairs[n]) {
        forall j | 0 <= j < |t| ensures !IsLastSetting(t, a, j) {
          if IsLastSetting(t, a, j) {
            assert IsLastSetting(pairs, a, j) by {
              forall k | j < k < |pairs| ensures Attr(pairs[k]) != a && !IsReset(pairs[k]) {
                if k < n {
                  assert t[k] == pairs[k];
                }
              }
            }
          }
        }
        LatestWithoutSetting(t, a);
      }
    }
  }

  /**
   * Kotlin `==` on the two kinds of object `get` compares: an
   * `Instruction` (a data class) equals an `Instruction` with the same
   * properties, an `Attribute` only itself.
   */
  datatype Ref = InstructionRef(instruction: Instruction) | AttributeRef(attribute: Attribute)

  function RefEquals(x: Ref, y: Ref): bool
  {
    match x
    case InstructionRef(i) => y.InstructionRef? && y.instruction == i
    case AttributeRef(a) => y.AttributeRef? && y.attribute == a
  }

  /**
   * `get(attribute)` exactly as written: it compares the instruction itself
   * with the attribute, which never holds, so only the `RESET` branch ever
   * fires and the result is always `null`.
   */
  method GetAsWritten(r: GraphicsRendition, attribute: Attribute) returns (result: Value)
    ensures result == Null
  {
    var pairs := r.instructions;
    result := Null;
    for i := 0 to |pairs|
      invariant result == Null
    {
      var p := pairs[i];
      if RefEquals(InstructionRef(p.instruction), AttributeRef(attribute)) {
        result := p.value;
      } else if RefEquals(InstructionRef(p.instruction), InstructionRef(RESET_INSTRUCTION)) {
        result := Null;
      }
    }
  }

  // ---------------------------------------------------------------- normalized

  /**
   * The position of the first entry with attribute `a` in the ordered
   * entries of a `LinkedHashMap<Attribute, Pair>`, or `|s|` when there is none.
   */
  function FindAttr(s: seq<Pair>, a: Attribute): (j: nat)
    ensures j <= |s|
    ensures j < |s| ==> Attr(s[j]) == a
    ensures forall k :: 0 <= k < j ==> Attr(s[k]) != a
  {
    if s == [] then 0 else if Attr(s[0]) == a then 0 else 1 + FindAttr(s[1..], a)
  }

  /** `state[a]`: the value stored under `a`, or `null`. */
  function Lookup(s: seq<Pair>, a: Attribute): (v: Value)
    ensures DistinctAttrs(s) ==> forall k :: 0 <= k < |s| && Attr(s[k]) == a ==> v == s[k].value
    ensures (forall k :: 0 <= k < |s| ==> Attr(s[k]) != a) ==> v == Null
  {
    var j := FindAttr(s, a);
    if j < |s| then s[j].value else Null
  }

  /**
   * `state[p.attribute] = p`: a key already present keeps its position and
   * takes the new pair; a new key goes last.
   */
  function Put(s: seq<Pair>, p: Pair): (r: seq<Pair>)
    ensures |r| == if FindAttr(s, Attr(p)) < |s| then |s| else |s| + 1
    ensures forall k :: 0 <= k < |s| && Attr(s[k]) != Attr(p) ==> r[k] == s[k]
    ensures FindAttr(r, Attr(p)) == FindAttr(s, Attr(p)) && r[FindAttr(s, Attr(p))] == p
  {
    var j := FindAttr(s, Attr(p));
    if j < |s| then
      FindAttrIs(s[j := p], Attr(p), j);
      s[j := p]
    else
      FindAttrIs(s + [p], Attr(p), |s|);
      s + [p]
  }

  /**
   * What `normalized` holds for the pairs `l`: the map is cleared by each
   * `RESET` (which is then stored itself), and every pair is stored under
   * its attribute.
   */
  function Normalize(l: seq<Pair>): (n: seq<Pair>)
    ensures |n| <= |l|
    ensures l != [] ==> n != []
  {
    if l == [] then []
    else
      var p := l[|l| - 1];
      Put(if IsReset(p) then [] else Normalize(l[..|l| - 1]), p)
  }

  /** `normalized`: one pass over the pairs into the map, whose entries become the new rendition. */
  method Normalized(r: GraphicsRendition) returns (n: GraphicsRendition)
    ensures n.instructions == Normalize(r.instructions)
  {
    var pairs := r.instructions;
    var state: seq<Pair> := [];
    for i := 0 to |pairs|
      invariant state == Normalize(pairs[..i])
    {
      var p := pairs[i];
      NormalizePrefixStep(pairs, i);
      if p.instruction == RESET_INSTRUCTION {
        state := [];
      }
      state := Put(state, p);
    }
    assert pairs[..|pairs|] == pairs;
    n := GraphicsRendition(state);
  }

  /** The step of `Normalized` at position `i`. */
  lemma NormalizePrefixStep(pairs: seq<Pair>, i: nat)
    requires i < |pairs|
    ensures Normalize(pairs[..i + 1]) == Put(if IsReset(pairs[i]) then [] else Normalize(pairs[..i]), pairs[i])
  {
    assert pairs[..i + 1] == pairs[..i] + [pairs[i]];
    NormalizeSnoc(pairs[..i], pairs[i]);
  }

  /** One more pair: `RESET` clears the map first, then the pair is stored. */
  lemma NormalizeSnoc(t: seq<Pair>, p: Pair)
    ensures Normalize(t + [p]) == Put(if IsReset(p) then [] else Normalize(t), p)
  {
    assert (t + [p])[..|t|] == t;
  }

  /** No two entries share an attribute. */
  predicate DistinctAttrs(s: seq<Pair>)
  {
    forall i, j :: 0 <= i < j < |s| ==> Attr(s[i]) != Attr(s[j])
  }

  /** The shape of a normalized list: one entry per attribute, and a `RESET` only at the front. */
  predicate Canonical(s: seq<Pair>)
  {
    DistinctAttrs(s) && forall k :: 0 < k < |s| ==> !IsReset(s[k])
  }

  /** `FindAttr` is the first position with the attribute: any position with that property is it. */
  lemma FindAttrIs(s: seq<Pair>, a: Attribute, i: nat)
    requires i <= |s| && (i < |s| ==> Attr(s[i]) == a)
    requires forall k :: 0 <= k < i ==> Attr(s[k]) != a
    ensures FindAttr(s, a) == i
  {
  }

  /** Appending a pair moves the search only when nothing before it matches. */
  lemma FindAttrSnoc(t: seq<Pair>, q: Pair, a: Attribute)
    ensures FindAttr(t + [q], a) == if FindAttr(t, a) < |t| || Attr(q) == a then FindAttr(t, a) else |t| + 1
  {
    var s := t + [q];
    var i := FindAttr(t, a);
    assert forall k :: 0 <= k < |t| ==> s[k] == t[k];
    if i < |t| || Attr(q) == a {
      FindAttrIs(s, a, i);
    } else {
      FindAttrIs(s, a, |s|);
    }
  }

  /** Replacing the entry at `j` by a pair with the same attribute changes what is stored under it only. */
  lemma ReplaceLookup(s: seq<Pair>, j: nat, p: Pair, a: Attribute)
    requires j < |s| && FindAttr(s, Attr(p)) == j
    ensures Lookup(s[j := p], a) == if Attr(p) == a then p.value else Lookup(s, a)
  {
    var t := s[j := p];
    var i := FindAttr(s, a);
    if Attr(p) == a {
      FindAttrIs(t, a, j);
    } else if i < |s| {
      FindAttrIs(t, a, i);
    } else {
      FindAttrIs(t, a, |t|);
    }
  }

  /** Appending a pair whose attribute is absent changes what is stored under it only. */
  lemma AppendLookup(s: seq<Pair>, p: Pair, a: Attribute)
    requires FindAttr(s, Attr(p)) == |s|
    ensures Lookup(s + [p], a) == if Attr(p) == a then p.value else Lookup(s, a)
  {
    FindAttrSnoc(s, p, a);
  }

  /** Storing a pair changes what is stored under its attribute and nothing else. */
  lemma PutLookup(s: seq<Pair>, p: Pair, a: Attribute)
    ensures Lookup(Put(s, p), a) == if Attr(p) == a then p.value else Lookup(s, a)
  {
    var j := FindAttr(s, Attr(p));
    if j < |s| {
      ReplaceLookup(s, j, p, a);
    } else {
      AppendLookup(s, p, a);
    }
  }

  /** Storing a pair other than `RESET` keeps a list canonical. */
  lemma PutCanonical(s: seq<Pair>, p: Pair)
    requires Canonical(s) && !IsReset(p)
    ensures Canonical(Put(s, p))
  {
  }

  /** `normalized` holds one entry per attribute, with a `RESET` only at the front. */
  lemma {:induction false} NormalizeCanonical(l: seq<Pair>)
    ensures Canonical(Normalize(l))
    decreases |l|
  {
    if l != [] {
      var p := l[|l| - 1];
      if !IsReset(p) {
        NormalizeCanonical(l[..|l| - 1]);
        PutCanonical(Normalize(l[..|l| - 1]), p);
      }
    }
  }

  /** The position of the last `RESET` in `l`, or 0 when there is none: where `normalized` starts afresh. */
  function LastReset(l: seq<Pair>): (k: nat)
    ensures k <= |l| && (l != [] ==> k < |l|)
    ensures forall i :: k < i < |l| ==> !IsReset(l[i])
    ensures k > 0 ==> IsReset(l[k])
  {
    if l == [] then 0 else if IsReset(l[|l| - 1]) then |l| - 1 else LastReset(l[..|l| - 1])
  }

  /** Where `a` is first set at or after the last `RESET`, or `|l|` when it is not set there. */
  function FirstSetting(l: seq<Pair>, a: Attribute): (k: nat)
    ensures LastReset(l) <= k <= |l|
    ensures k < |l| ==> Attr(l[k]) == a
    ensures forall i :: LastReset(l) <= i < k ==> Attr(l[i]) != a
  {
    LastReset(l) + FindAttr(l[LastReset(l)..], a)
  }

  /**
   * The order of a `LinkedHashMap` filled from `l`: each entry's attribute
   * was set after the last `RESET`, and the entries stand in the order
   * their attributes were FIRST set there (a later setting updates an
   * entry in place).
   */
  predicate SetInOrder(l: seq<Pair>, n: seq<Pair>)
  {
    (forall i :: 0 <= i < |n| ==> FirstSetting(l, Attr(n[i])) < |l|)
    && (forall i, j :: 0 <= i < j < |n| ==> FirstSetting(l, Attr(n[i])) < FirstSetting(l, Attr(n[j])))
  }

  /** Every attribute set after the last `RESET` of `l` has an entry in `n`. */
  predicate HoldsEverySetting(l: seq<Pair>, n: seq<Pair>)
  {
    forall k :: LastReset(l) <= k < |l| ==> FindAttr(n, Attr(l[k])) < |n|
  }

  /** Storing a pair makes its attribute present and leaves the presence of every other one alone. */
  lemma PutFindAttr(s: seq<Pair>, p: Pair, b: Attribute)
    ensures FindAttr(Put(s, p), b) < |Put(s, p)| <==> FindAttr(s, b) < |s| || b == Attr(p)
  {
    var j := FindAttr(s, Attr(p));
    var t := Put(s, p);
    var i := FindAttr(s, b);
    if j < |s| {
      if b == Attr(p) {
        FindAttrIs(t, b, j);
      } else if i < |s| {
        FindAttrIs(t, b, i);
      } else {
        FindAttrIs(t, b, |t|);
      }
    } else {
      FindAttrSnoc(s, p, b);
    }
  }

  /** A pair other than `RESET` leaves the last `RESET` where it was. */
  lemma LastResetSnoc(t: seq<Pair>, p: Pair)
    requires !IsReset(p)
    ensures LastReset(t + [p]) == LastReset(t)
  {
    assert (t + [p])[..|t|] == t;
  }

  /** After a pair other than `RESET`, first settings before it stay where they were. */
  lemma FirstSettingSnoc(t: seq<Pair>, p: Pair, a: Attribute)
    requires !IsReset(p)
    ensures FirstSetting(t + [p], a) ==
      if FirstSetting(t, a) < |t| || Attr(p) == a then FirstSetting(t, a) else |t| + 1
  {
    LastResetSnoc(t, p);
    var r := LastReset(t);
    var u := t[r..];
    assert (t + [p])[r..] == u + [p];
    FindAttrSnoc(u, p, a);
    assert FirstSetting(t, a) == r + FindAttr(u, a);
    assert FirstSetting(t + [p], a) == r + FindAttr(u + [p], a);
  }

  /** A pair other than `RESET` is stored under an attribute that then has an entry; the others keep theirs. */
  lemma HoldsEverySettingStep(t: seq<Pair>, m: seq<Pair>, p: Pair)
    requires !IsReset(p) && HoldsEverySetting(t, m)
    ensures HoldsEverySetting(t + [p], Put(m, p))
  {
    var l := t + [p];
    var n := Put(m, p);
    FirstSettingSnoc(t, p, Attr(p));
    forall k | LastReset(l) <= k < |l| ensures FindAttr(n, Attr(l[k])) < |n| {
      PutFindAttr(m, p, Attr(l[k]));
      if k < |t| {
        assert l[k] == t[k];
      }
    }
  }

  /** Updating an entry in place keeps the order of first settings. */
  lemma SetInOrderReplace(t: seq<Pair>, m: seq<Pair>, p: Pair)
    requires !IsReset(p) && SetInOrder(t, m) && FindAttr(m, Attr(p)) < |m|
    ensures SetInOrder(t + [p], Put(m, p))
  {
    var n := Put(m, p);
    assert n == m[FindAttr(m, Attr(p)) := p];
    assert forall i :: 0 <= i < |n| ==> Attr(n[i]) == Attr(m[i]);
    forall i | 0 <= i < |n| ensures FirstSetting(t + [p], Attr(n[i])) == FirstSetting(t, Attr(m[i])) {
      FirstSettingSnoc(t, p, Attr(m[i]));
    }
  }

  /** An attribute set for the first time goes last, after every attribute set before it. */
  lemma SetInOrderAppend(t: seq<Pair>, m: seq<Pair>, p: Pair)
    requires !IsReset(p) && SetInOrder(t, m) && FindAttr(m, Attr(p)) == |m| && FirstSetting(t, Attr(p)) == |t|
    ensures SetInOrder(t + [p], Put(m, p))
  {
    var l := t + [p];
    var n := Put(m, p);
    assert n == m + [p];
    FirstSettingSnoc(t, p, Attr(p));
    forall i | 0 <= i < |m| ensures FirstSetting(l, Attr(n[i])) == FirstSetting(t, Attr(m[i])) < |t| {
      FirstSettingSnoc(t, p, Attr(m[i]));
    }
    forall i, j | 0 <= i < j < |n| ensures FirstSetting(l, Attr(n[i])) < FirstSetting(l, Attr(n[j])) {
      if j < |m| {
        assert FirstSetting(t, Attr(m[i])) < FirstSetting(t, Attr(m[j]));
      }
    }
  }

  /** An attribute absent from a list holding every setting of `t` was not set after the last `RESET`. */
  lemma NotSetBefore(t: seq<Pair>, m: seq<Pair>, a: Attribute)
    requires HoldsEverySetting(t, m) && FindAttr(m, a) == |m|
    ensures FirstSetting(t, a) == |t|
  {
  }

  /**
   * `normalized` keeps the `LinkedHashMap`'s order: its entries stand in
   * the order their attributes were first set after the last `RESET`.
   */
  lemma {:induction false} NormalizeOrder(l: seq<Pair>)
    ensures SetInOrder(l, Normalize(l)) && HoldsEverySetting(l, Normalize(l))
    decreases |l|
  {
    if l != [] {
      var t := l[..|l| - 1];
      var p := l[|l| - 1];
      assert l == t + [p];
      NormalizeSnoc(t, p);
      if IsReset(p) {
        assert LastReset(l) == |t|;
        assert l[|t|..] == [p];
      } else {
        var m := Normalize(t);
        NormalizeOrder(t);
        HoldsEverySettingStep(t, m, p);
        if FindAttr(m, Attr(p)) < |m| {
          SetInOrderReplace(t, m, p);
        } else {
          NotSetBefore(t, m, Attr(p));
          SetInOrderAppend(t, m, p);
        }
      }
    }
  }

  /** What `normalized` stores under an attribute is what `get` reports for the original list. */
  lemma {:induction false} NormalizeLookup(l: seq<Pair>, a: Attribute)
    ensures Lookup(Normalize(l), a) == LatestSetting(l, a)
    decreases |l|
  {
    if l != [] {
      var p := l[|l| - 1];
      var t := l[..|l| - 1];
      if IsReset(p) {
        PutLookup([], p, a);
      } else {
        NormalizeLookup(t, a);
        PutLookup(Normalize(t), p, a);
      }
    }
  }

  /** Dropping the last entry keeps a list canonical. */
  lemma CanonicalPrefix(s: seq<Pair>)
    requires Canonical(s) && s != []
    ensures Canonical(s[..|s| - 1])
    ensures s == s[..|s| - 1] + [s[|s| - 1]]
    ensures IsReset(s[|s| - 1]) ==> |s| == 1
  {
    assert forall k :: 0 <= k < |s| - 1 ==> s[..|s| - 1][k] == s[k];
  }

  /** In a list with distinct attributes, the last entry is the first with its attribute. */
  lemma LastIsFirst(s: seq<Pair>)
    requires DistinctAttrs(s) && s != []
    ensures FindAttr(s, Attr(s[|s| - 1])) == |s| - 1
  {
    FindAttrIs(s, Attr(s[|s| - 1]), |s| - 1);
  }

  /** On a canonical list, `get` reads the one entry for the attribute. */
  lemma {:induction false} CanonicalLatest(s: seq<Pair>, a: Attribute)
    requires Canonical(s)
    ensures LatestSetting(s, a) == Lookup(s, a)
    decreases |s|
  {
    if s != [] {
      var q := s[|s| - 1];
      var t := s[..|s| - 1];
      CanonicalPrefix(s);
      if Attr(q) == a {
        LastIsFirst(s);
      } else if !IsReset(q) {
        CanonicalLatest(t, a);
        LatestBeforeLast(t, q, a);
      } else {
        FindAttrIs(s, a, |s|);
      }
    }
  }

  /** `CanonicalLatest` past a last pair of another attribute that is not a reset. */
  lemma LatestBeforeLast(t: seq<Pair>, q: Pair, a: Attribute)
    requires Attr(q) != a && !IsReset(q) && LatestSetting(t, a) == Lookup(t, a)
    ensures LatestSetting(t + [q], a) == Lookup(t + [q], a)
  {
    var s := t + [q];
    assert s[..|s| - 1] == t;
    FindAttrSnoc(t, q, a);
    if FindAttr(t, a) < |t| {
      assert s[FindAttr(t, a)] == t[FindAttr(t, a)];
    }
  }

  /** `get` gives the same answer on `normalized` as on the original, for every attribute. */
  lemma NormalizeGet(l: seq<Pair>, a: Attribute)
    ensures LatestSetting(Normalize(l), a) == LatestSetting(l, a)
  {
    NormalizeCanonical(l);
    CanonicalLatest(Normalize(l), a);
    NormalizeLookup(l, a);
  }

  /** A canonical list is already normalized. */
  lemma {:induction false} CanonicalFixpoint(s: seq<Pair>)
    requires Canonical(s)
    ensures Normalize(s) == s
    decreases |s|
  {
    if s != [] {
      var q := s[|s| - 1];
      var t := s[..|s| - 1];
      CanonicalPrefix(s);
      if IsReset(q) {
        assert |s| == 1;
      } else {
        CanonicalFixpoint(t);
        LastIsFirst(s);
        FindAttrSnoc(t, q, Attr(q));
      }
    }
  }

  /** `normalized` is idempotent. */
  lemma NormalizeIdempotent(l: seq<Pair>)
    ensures Normalize(Normalize(l)) == Normalize(l)
  {
    NormalizeCanonical(l);
    CanonicalFixpoint(Normalize(l));
  }

  /** Storing a pair other than `RESET` keeps the first entry when there is one. */
  lemma PutKeepsHead(s: seq<Pair>, p: Pair)
    requires !IsReset(p) && InTable(p.instruction)
    ensures |s| > 0 && IsReset(s[0]) ==> Put(s, p)[0] == s[0]
    ensures |s| > 0 ==> IsReset(Put(s, p)[0]) == IsReset(s[0])
    ensures s == [] ==> Put(s, p) == [p]
  {
    ResetInstruction(p.instruction);
    if |s| > 0 && IsReset(s[0]) {
      assert FindAttr(s, Attr(p)) != 0;
    }
  }

  /** Some pair of `l` is `RESET`. */
  predicate HasReset(l: seq<Pair>)
  {
    exists k :: 0 <= k < |l| && IsReset(l[k])
  }

  /** A list has a `RESET` when its front has one or its last pair is one. */
  lemma ResetInSnoc(l: seq<Pair>)
    requires l != []
    ensures HasReset(l) <==> HasReset(l[..|l| - 1]) || IsReset(l[|l| - 1])
  {
    assert forall k :: 0 <= k < |l| - 1 ==> l[..|l| - 1][k] == l[k];
  }

  /** Dropping the last pair keeps a list drawn from the table. */
  lemma FromTablePrefix(l: seq<Pair>)
    requires FromTable(l) && l != []
    ensures FromTable(l[..|l| - 1]) && InTable(l[|l| - 1].instruction)
  {
    assert forall k :: 0 <= k < |l| - 1 ==> l[..|l| - 1][k] == l[k];
  }

  /** The normalized list begins with `RESET` exactly when the original contains one. */
  lemma {:induction false} NormalizeResetHead(l: seq<Pair>)
    requires FromTable(l)
    ensures HasReset(l) <==> |Normalize(l)| > 0 && IsReset(Normalize(l)[0])
    decreases |l|
  {
    if l != [] {
      var p := l[|l| - 1];
      var t := l[..|l| - 1];
      ResetInSnoc(l);
      if !IsReset(p) {
        FromTablePrefix(l);
        NormalizeResetHead(t);
        PutKeepsHead(Normalize(t), p);
      }
    }
  }

  /** Every entry of `normalized` is one of the original pairs. */
  lemma {:induction false} NormalizeMembers(l: seq<Pair>)
    ensures forall q :: q in Normalize(l) ==> q in l
    decreases |l|
  {
    if l != [] {
      var p := l[|l| - 1];
      var t := l[..|l| - 1];
      if !IsReset(p) {
        NormalizeMembers(t);
        assert forall q :: q in t ==> q in l;
      }
    }
  }

  // ---------------------------------------------------------------- toString and compile

  /** `Instruction.entries.indexOf(instruction)`: the pair's slot, or -1 for an instruction outside the table. */
  function Code(p: Pair): int
  {
    IndexOfInstruction(p.instruction)
  }

  /** One pair as `toString` writes it: the index, then `;` and the written arguments unless there are none. */
  function PairString(p: Pair): (s: string)
    ensures IntToString(Code(p)) <= s
    ensures s == IntToString(Code(p)) <==> WriteValue(p.instruction, p.value) == []
  {
    var index := IntToString(Code(p));
    var serializedArgs := Join(Decimals(WriteValue(p.instruction, p.value)), ';');
    if serializedArgs == [] then index else index + [';'] + serializedArgs
  }

  /** Each pair's string, in order. */
  function PairStrings(pairs: seq<Pair>): (parts: seq<string>)
    ensures |parts| == |pairs|
    ensures forall k :: 0 <= k < |pairs| ==> parts[k] == PairString(pairs[k])
  {
    if pairs == [] then [] else [PairString(pairs[0])] + PairStrings(pairs[1..])
  }

  /** `toString()`: the pairs' strings joined by `;`. */
  function ToString(r: GraphicsRendition): (s: string)
    ensures s == [] <==> r.instructions == []
    ensures |r.instructions| > 0 ==> PairString(r.instructions[0]) <= s
  {
    Join(PairStrings(r.instructions), ';')
  }

  /** `compile()`: the control sequence introducer, the normalized rendition, and the final byte `m`. */
  function Compile(r: GraphicsRendition): (s: string)
    ensures |s| >= 3 && s[..2] == "\U{1B}[" && s[|s| - 1] == 'm'
  {
    "\U{1B}[" + ToString(GraphicsRendition(Normalize(r.instructions))) + "m"
  }

  /** The SGR parameters one pair of the table writes: its slot, then its encoder's output. */
  function PairParams(p: Pair): (ps: seq<nat>)
    requires InTable(p.instruction)
    ensures |ps| > 0 && ps[0] == Code(p)
  {
    [Code(p) as nat] + WriteValue(p.instruction, p.value)
  }

  /** The SGR parameters of a list of pairs of the table, in order. */
  function Params(pairs: seq<Pair>): seq<nat>
    requires FromTable(pairs)
  {
    if pairs == [] then [] else PairParams(pairs[0]) + Params(pairs[1..])
  }

  /** Dropping the first pair keeps a list drawn from the table. */
  lemma FromTableTail(pairs: seq<Pair>)
    requires FromTable(pairs) && pairs != []
    ensures FromTable(pairs[1..]) && InTable(pairs[0].instruction)
  {
    assert forall k :: 0 <= k < |pairs| - 1 ==> pairs[1..][k] == pairs[k + 1];
  }

  /** A pair of the table is written as the decimal list of its parameters. */
  lemma PairStringParams(p: Pair)
    requires InTable(p.instruction)
    ensures PairString(p) == Join(Decimals(PairParams(p)), ';')
  {
    var w := WriteValue(p.instruction, p.value);
    var code: nat := Code(p);
    DecimalsAppend([code], w);
    if w != [] {
      JoinAppend(Decimals([code]), Decimals(w), ';');
    } else {
      assert [code] + w == [code];
    }
  }

  /** `toString` writes the decimal parameters of the pairs, separated by `;`. */
  lemma {:induction false} ToStringParams(pairs: seq<Pair>)
    requires FromTable(pairs)
    ensures ToString(GraphicsRendition(pairs)) == Join(Decimals(Params(pairs)), ';')
    decreases |pairs|
  {
    if pairs != [] {
      var p := pairs[0];
      var rest := pairs[1..];
      FromTableTail(pairs);
      PairStringParams(p);
      var head := Decimals(PairParams(p));
      assert Params(pairs) == PairParams(p) + Params(rest);
      DecimalsAppend(PairParams(p), Params(rest));
      assert PairStrings(pairs) == [PairString(p)] + PairStrings(rest);
      if rest == [] {
        assert Params(pairs) == PairParams(p);
        assert PairStrings(pairs) == [PairString(p)];
      } else {
        ToStringParams(rest);
        JoinCons(PairString(p), PairStrings(rest), ';');
        JoinAppend(head, Decimals(Params(rest)), ';');
      }
    }
  }

  /** `compile()` of a normalized rendition writes its SGR parameters in decimal, separated by `;`, between `ESC [` and `m`. */
  lemma CompileParams(r: GraphicsRendition)
    requires FromTable(r.instructions) && Normalize(r.instructions) == r.instructions
    ensures Compile(r) == "\U{1B}[" + Join(Decimals(Params(r.instructions)), ';') + "m"
  {
    ToStringParams(r.instructions);
  }

  /** What reading a pair back yields: a fixed slot its constant (the stored value is not written), a colour slot the pair itself. */
  function Reread(p: Pair): (q: Pair)
    ensures q.instruction == p.instruction
    ensures Decodable(q)
    ensures Decodable(p) ==> q == p
  {
    match p.instruction.read
    case Constant(v) => Pair(p.instruction, v)
    case ParseColor => if p.value.OfColor? then p else Pair(p.instruction, Null)
  }

  /** Every pair read back, in order. */
  function Reparse(pairs: seq<Pair>): (r: seq<Pair>)
    ensures |r| == |pairs|
    ensures forall k :: 0 <= k < |pairs| ==> r[k] == Reread(pairs[k])
  {
    if pairs == [] then [] else [Reread(pairs[0])] + Reparse(pairs[1..])
  }

  /** A colour slot holds a colour: the only case `toString` writes in full. */
  predicate ColorsWritten(pairs: seq<Pair>)
  {
    forall k :: 0 <= k < |pairs| ==> pairs[k].instruction.read.ParseColor? ==> pairs[k].value.OfColor?
  }

  /** Parsing what one pair writes, followed by anything, reads the pair back and then the rest. */
  lemma DecodePairParams(p: Pair, rest: seq<int>)
    requires InTable(p.instruction)
    requires p.instruction.read.ParseColor? ==> p.value.OfColor?
    ensures Decode(PairParams(p) + rest) == [Reread(p)] + Decode(rest)
  {
    var code: InstructionCode := Code(p);
    assert InstructionAt(code) == p.instruction;
    TableShape(code);
    if p.instruction.read.ParseColor? {
      DecodeColor(code, p.value.color, rest);
      assert PairParams(p) + rest == [code] + WriteColorOf(OfColor(p.value.color)) + rest;
    } else {
      DecodeFixed(code, rest);
      assert PairParams(p) + rest == [code] + rest;
    }
  }

  /** Parsing the parameters `toString` writes gives back every pair, with fixed slots holding their constants. */
  lemma {:induction false} ParamsRoundTrip(pairs: seq<Pair>)
    requires FromTable(pairs) && ColorsWritten(pairs)
    ensures Decode(Params(pairs)) == Reparse(pairs)
    decreases |pairs|
  {
    if pairs != [] {
      var rest := pairs[1..];
      FromTableTail(pairs);
      assert ColorsWritten(rest) by {
        assert forall k :: 0 <= k < |rest| ==> rest[k] == pairs[k + 1];
      }
      ParamsRoundTrip(rest);
      DecodePairParams(pairs[0], Params(rest));
    }
  }

  /** `parse(toString())` gives back a parsed rendition whose colour slots hold colours. */
  lemma ParseToString(pairs: seq<Pair>)
    requires FromTable(pairs) && ColorsWritten(pairs)
    requires forall p :: p in pairs ==> Decodable(p)
    ensures Decode(Params(pairs)) == pairs
  {
    ParamsRoundTrip(pairs);
  }

  // ---------------------------------------------------------------- the unit tests' scenarios

  /** The slots the unit tests use. */
  lemma TestSlots()
    ensures Entry(0).value == RESET_INSTRUCTION
    ensures Entry(1).value == Fixed(INTENSITY, OfIntensity(BOLD))
    ensures Entry(22).value == Fixed(INTENSITY, OfIntensity(Intensity.NORMAL))
    ensures Entry(31).value == Fixed(FOREGROUND, OfColor(RED.ToColor()))
  {
  }

  /** `parse([1])` has intensity `BOLD`, which `GetAsWritten` cannot report. */
  lemma ParseBold(args: seq<int>)
    requires args == [1]
    ensures Decode(args) == [Pair(InstructionAt(1), OfIntensity(BOLD))]
    ensures LatestSetting(Decode(args), INTENSITY) == OfIntensity(BOLD) != Null
  {
    TestSlots();
    DecodeFixedRun(args);
  }

  /** `parse([1, 31])`: bold, then the foreground `SimpleColor.RED`. */
  lemma ParseBoldRed(args: seq<int>)
    requires |args| == 2 && args[0] == 1 && args[1] == 31
    ensures var d := Decode(args);
      |d| == 2 && d[0] == Pair(InstructionAt(1), OfIntensity(BOLD)) && d[1] == Pair(InstructionAt(31), OfColor(RED.ToColor()))
  {
    TestSlots();
    assert FixedCode(args[0]) && FixedCode(args[1]);
    DecodeFixedRun(args);
  }

  /** ... whose intensity is `BOLD` and whose foreground is red. */
  lemma GetBoldRed(pairs: seq<Pair>)
    requires pairs == [Pair(InstructionAt(1), OfIntensity(BOLD)), Pair(InstructionAt(31), OfColor(RED.ToColor()))]
    ensures LatestSetting(pairs, INTENSITY) == OfIntensity(BOLD)
    ensures LatestSetting(pairs, FOREGROUND) == OfColor(RED.ToColor())
  {
    TestSlots();
    assert pairs[..1] == [pairs[0]];
  }

  /** `parse([1, 31, 0])`: the reset clears both. */
  lemma ParseReset(args: seq<int>)
    requires args == [1, 31, 0]
    ensures LatestSetting(Decode(args), INTENSITY) == Null
    ensures LatestSetting(Decode(args), FOREGROUND) == Null
  {
    TestSlots();
    assert FixedCode(args[0]) && FixedCode(args[1]) && FixedCode(args[2]);
    DecodeFixedRun(args);
    var d := Decode(args);
    assert d[2] == Pair(RESET_INSTRUCTION, Null);
  }

  /** `parse([1, 22])`: the later normal intensity wins. */
  lemma ParseNormalIntensity(args: seq<int>)
    requires args == [1, 22]
    ensures LatestSetting(Decode(args), INTENSITY) == OfIntensity(Intensity.NORMAL)
  {
    TestSlots();
    assert FixedCode(args[0]) && FixedCode(args[1]);
    DecodeFixedRun(args);
    var d := Decode(args);
    assert d[1] == Pair(InstructionAt(22), OfIntensity(Intensity.NORMAL));
  }

  /** `parse([38, 2, 255, 100, 50])`: a direct foreground colour. */
  lemma ParseForegroundRgb(args: seq<int>)
    requires args == [38, 2, 255, 100, 50]
    ensures Decode(args) == [Pair(InstructionAt(38), OfColor(Rgb(255, 100, 50)))]
    ensures LatestSetting(Decode(args), FOREGROUND) == OfColor(Rgb(255, 100, 50))
  {
    var c: Color := Rgb(255, 100, 50);
    var none: seq<int> := [];
    assert args == [38] + WriteColorOf(OfColor(c)) + none;
    DecodeColor(38, c, none);
    TableShape(38);
  }

  /** `parse([48, 2, 10, 20, 30])`: a direct background colour. */
  lemma ParseBackgroundRgb(args: seq<int>)
    requires args == [48, 2, 10, 20, 30]
    ensures Decode(args) == [Pair(InstructionAt(48), OfColor(Rgb(10, 20, 30)))]
    ensures LatestSetting(Decode(args), BACKGROUND) == OfColor(Rgb(10, 20, 30))
  {
    var c: Color := Rgb(10, 20, 30);
    var none: seq<int> := [];
    assert args == [48] + WriteColorOf(OfColor(c)) + none;
    DecodeColor(48, c, none);
    TableShape(48);
  }

  /** A component out of range drops the code and its four arguments, but not what follows. */
  lemma ParseComponentOutOfRange(args: seq<int>)
    requires args == [38, 2, 256, 0, 0, 1]
    ensures Decode(args) == [Pair(InstructionAt(1), OfIntensity(BOLD))]
  {
    var rest := args[1..];
    var tail := rest[4..];
    assert args == [38] + rest;
    DecodeExtended(38, rest);
    ParseColorCases(rest);
    assert tail == [1];
    ParseBold(tail);
  }

  /** A colour cut short throws after taking everything that was left. */
  lemma ParseShortColor(args: seq<int>)
    requires args == [48, 2, 1]
    ensures Decode(args) == []
  {
    var rest := args[1..];
    assert args == [48] + rest;
    DecodeExtended(48, rest);
    ParseColorCases(rest);
  }

  /** `parse([58, 7, 1])`: an unknown colour selector yields `null` and consumes only itself. */
  lemma ParseUnknownSelector(args: seq<int>)
    requires |args| == 3 && args[0] == 58 && args[1] == 7 && args[2] == 1
    ensures Decode(args) == [Pair(InstructionAt(58), Null), Pair(InstructionAt(1), OfIntensity(BOLD))]
  {
    var tail := args[2..];
    assert args == [args[0], args[1]] + tail;
    DecodeUnknownSelector(args[0], args[1], tail);
    ParseBold(tail);
  }
}
