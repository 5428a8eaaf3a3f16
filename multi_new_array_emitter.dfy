/** `new T[a][b]...`: strips one array marker from the type descriptor per size
    expression, then writes one bracket pair per size. */
module MultiNewArrayEmitter {
  import opened Ast
  import opened FormatPolicy
  import opened Emitter

  /** The descriptor with `dims` leading `[` removed one at a time, or None when one is missing. */
  function StripDims(desc: string, dims: nat): (base: Option<string>)
    ensures base.Some? ==> dims <= |desc| && base.value == desc[dims..]
  {
    if dims == 0 then Some(desc)
    else if |desc| > 0 && desc[0] == '[' then StripDims(desc[1..], dims - 1)
    else None
  }

  /** The number of array markers at the front of a descriptor. */
  function LeadingMarkers(desc: string): nat
  {
    if |desc| > 0 && desc[0] == '[' then 1 + LeadingMarkers(desc[1..]) else 0
  }

  /** Stripping succeeds with `base` exactly when the descriptor is `dims` markers followed by `base`. */
  lemma {:induction false} StripDimsExact(desc: string, dims: nat, base: string)
    ensures StripDims(desc, dims) == Some(base) <==> desc == Repeat('[', dims) + base
  {
    if dims > 0 {
      if |desc| > 0 && desc[0] == '[' {
        StripDimsExact(desc[1..], dims - 1, base);
        assert desc == [desc[0]] + desc[1..];
        if desc == Repeat('[', dims) + base {
          assert desc[1..] == Repeat('[', dims - 1) + base;
        }
      } else {
        assert (Repeat('[', dims) + base)[0] == '[';
      }
    }
  }

  /** Stripping fails exactly when the descriptor has fewer than `dims` leading markers. */
  lemma {:induction false} StripDimsFails(desc: string, dims: nat)
    ensures StripDims(desc, dims).None? <==> LeadingMarkers(desc) < dims
  {
    if dims > 0 && |desc| > 0 && desc[0] == '[' {
      StripDimsFails(desc[1..], dims - 1);
    }
  }

  /** One `[ size ]` pair, the size rendered as an `int`, the inner spaces switched by the format. */
  function BracketPair(fmt: Format, r: Renderers, size: Instruction): string
  {
    "[" + (if fmt.spaceAfterOpeningBracketInArrayAllocation then " " else "")
    + r.emit(size, IntType)
    + (if fmt.spaceBeforeClosingBracketInArrayAllocation then " " else "") + "]"
  }

  /** The bracket pairs of the sizes, written front to back. */
  function Brackets(fmt: Format, r: Renderers, sizes: seq<Instruction>): string
  {
    if |sizes| == 0 then ""
    else Brackets(fmt, r, sizes[..|sizes| - 1]) + BracketPair(fmt, r, sizes[|sizes| - 1])
  }

  /** Everything the emitter writes: `new ` always, then the base type and the brackets
      unless the descriptor is missing a marker, which throws IllegalStateException. */
  function Allocation(fmt: Format, r: Renderers, arg: MultiNewArray): Emission
  {
    match StripDims(arg.descriptor, |arg.sizes|)
    case None => Emission(Text("new "), Thrown(IllegalState))
    case Some(base) => Emission(Text("new " + r.emitType(base) + Brackets(fmt, r, arg.sizes)), Done)
  }

  /** The bracket pairs follow the sizes in declaration order: splitting the sizes splits the text. */
  lemma {:induction false} BracketsAppend(fmt: Format, r: Renderers, a: seq<Instruction>, b: seq<Instruction>)
    ensures Brackets(fmt, r, a + b) == Brackets(fmt, r, a) + Brackets(fmt, r, b)
  {
    if |b| > 0 {
      var init := b[..|b| - 1];
      BracketsAppend(fmt, r, a, init);
      assert (a + b)[..|a + b| - 1] == a + init;
    } else {
      assert a + b == a;
    }
  }

  /** The number of times `c` occurs in `s`. */
  function Count(s: string, c: char): nat
  {
    if |s| == 0 then 0 else Count(s[..|s| - 1], c) + (if s[|s| - 1] == c then 1 else 0)
  }

  lemma {:induction false} CountAppend(a: string, b: string, c: char)
    ensures Count(a + b, c) == Count(a, c) + Count(b, c)
  {
    if |b| > 0 {
      CountAppend(a, b[..|b| - 1], c);
      assert (a + b)[..|a + b| - 1] == a + b[..|b| - 1];
    } else {
      assert a + b == a;
    }
  }

  lemma {:induction false} CountAbsent(s: string, c: char)
    requires c !in s
    ensures Count(s, c) == 0
  {
    if |s| > 0 {
      assert s[..|s| - 1] <= s;
      CountAbsent(s[..|s| - 1], c);
    }
  }

  /** A pair around a size rendered without brackets holds one `[` and one `]`. */
  lemma OnePair(fmt: Format, r: Renderers, size: Instruction, c: char)
    requires c == '[' || c == ']'
    requires c !in r.emit(size, IntType)
    ensures Count(BracketPair(fmt, r, size), c) == 1
  {
    var open := if fmt.spaceAfterOpeningBracketInArrayAllocation then " " else "";
    var close := if fmt.spaceBeforeClosingBracketInArrayAllocation then " " else "";
    var rendered := r.emit(size, IntType);
    CountAbsent(open, c);
    CountAbsent(close, c);
    CountAbsent(rendered, c);
    CountAppend("[" + open + rendered + close, "]", c);
    CountAppend("[" + open + rendered, close, c);
    CountAppend("[" + open, rendered, c);
    CountAppend("[", open, c);
  }

  /** When no rendered size contains a bracket, the brackets hold exactly one `[` and one `]` per size. */
  lemma {:induction false} OnePairPerSize(fmt: Format, r: Renderers, sizes: seq<Instruction>)
    requires forall i :: 0 <= i < |sizes| ==> '[' !in r.emit(sizes[i], IntType) && ']' !in r.emit(sizes[i], IntType)
    ensures Count(Brackets(fmt, r, sizes), '[') == |sizes|
    ensures Count(Brackets(fmt, r, sizes), ']') == |sizes|
  {
    if |sizes| > 0 {
      var init := sizes[..|sizes| - 1];
      var size := sizes[|sizes| - 1];
      OnePairPerSize(fmt, r, init);
      OnePair(fmt, r, size, '[');
      OnePair(fmt, r, size, ']');
      CountAppend(Brackets(fmt, r, init), BracketPair(fmt, r, size), '[');
      CountAppend(Brackets(fmt, r, init), BracketPair(fmt, r, size), ']');
    }
  }

  /** Rendering fails exactly when the descriptor has fewer markers than there are sizes, and
      `new ` is written either way; on success the base type is the descriptor without its
      first |sizes| characters. */
  lemma AllocationOutcome(fmt: Format, r: Renderers, arg: MultiNewArray)
    ensures Allocation(fmt, r, arg).outcome.Thrown? <==> LeadingMarkers(arg.descriptor) < |arg.sizes|
    ensures |Allocation(fmt, r, arg).piece.text| >= 4 && Allocation(fmt, r, arg).piece.text[..4] == "new "
    ensures Allocation(fmt, r, arg).outcome.Done? ==>
              |arg.sizes| <= |arg.descriptor| &&
              Allocation(fmt, r, arg).piece.text
                == "new " + r.emitType(arg.descriptor[|arg.sizes|..]) + Brackets(fmt, r, arg.sizes)
  {
    StripDimsFails(arg.descriptor, |arg.sizes|);
  }

  /** With every switch off, a two-dimensional `int` allocation with sizes 3 and 4 reads `new int[3][4]`. */
  lemma TwoDimensionalInt(r: Renderers, three: Instruction, four: Instruction)
    requires r.emitType("I") == "int"
    requires r.emit(three, IntType) == "3" && r.emit(four, IntType) == "4"
    ensures Allocation(Default, r, MultiNewArray("[[I", [three, four])) == Emission(Text("new int[3][4]"), Done)
  {
    StripDimsExact("[[I", 2, "I");
    assert Repeat('[', 2) == "[[";
    assert StripDims("[[I", 2) == Some("I");
    assert [three, four][..1] == [three];
    assert [three][..0] == [];
    assert Brackets(Default, r, [three]) == "[3]";
    assert Brackets(Default, r, [three, four]) == "[3][4]";
  }

  /** The descriptor loop of MultiNewArrayEmitter.emit: one leading `[` removed per dimension;
      None where the source throws IllegalStateException. */
  method StripDimensions(descriptor: string, dims: nat) returns (base: Option<string>)
    ensures base.None? <==> LeadingMarkers(descriptor) < dims
    ensures base.Some? ==> descriptor == Repeat('[', dims) + base.value
    ensures base == StripDims(descriptor, dims)
  {
    var desc := descriptor;
    var i := 0;
    while i < dims
      invariant 0 <= i <= dims
      invariant StripDims(desc, dims - i) == StripDims(descriptor, dims)
    {
      if !(|desc| > 0 && desc[0] == '[') {
        StripDimsFails(descriptor, dims);
        return None;
      }
      desc := desc[1..];
      i := i + 1;
    }
    base := Some(desc);
    StripDimsFails(descriptor, dims);
    StripDimsExact(descriptor, dims, desc);
  }

  /** One pass of the size loop of MultiNewArrayEmitter.emit. */
  method EmitBracketPair(ctx: EmitterContext, size: Instruction)
    modifies ctx`out
    ensures ctx.out == old(ctx.out) + BracketPair(ctx.format, ctx.renderers, size)
  {
    ctx.PrintString("[");
    ctx.PrintStringIf(" ", ctx.format.spaceAfterOpeningBracketInArrayAllocation);
    ctx.Emit(size, IntType);
    ctx.PrintStringIf(" ", ctx.format.spaceBeforeClosingBracketInArrayAllocation);
    ctx.PrintString("]");
  }

  /** The size loop of MultiNewArrayEmitter.emit: one bracket pair per size, in order. */
  method EmitBrackets(ctx: EmitterContext, sizes: seq<Instruction>)
    modifies ctx`out
    ensures ctx.out == old(ctx.out) + Brackets(ctx.format, ctx.renderers, sizes)
  {
    ghost var prefix := ctx.out;
    ghost var fmt, r := ctx.format, ctx.renderers;
    var i := 0;
    assert sizes[..0] == [];
    while i < |sizes|
      invariant 0 <= i <= |sizes|
      invariant ctx.out == prefix + Brackets(fmt, r, sizes[..i])
    {
      EmitBracketPair(ctx, sizes[i]);
      assert sizes[..i + 1][..i] == sizes[..i];
      i := i + 1;
    }
    assert sizes[..i] == sizes;
  }

  /** MultiNewArrayEmitter.emit; the expected type is not used. */
  method Emit(ctx: EmitterContext, arg: MultiNewArray, expected: TypeSig) returns (outcome: Outcome)
    modifies ctx`out
    ensures var e := Allocation(ctx.format, ctx.renderers, arg);
            outcome == e.outcome && ctx.out == old(ctx.out) + e.piece.text
  {
    ctx.PrintString("new ");
    var stripped := StripDimensions(arg.descriptor, |arg.sizes|);
    if stripped.None? {
      return Thrown(IllegalState);
    }
    ctx.EmitType(stripped.value);
    EmitBrackets(ctx, arg.sizes);
    outcome := Done;
  }
}
