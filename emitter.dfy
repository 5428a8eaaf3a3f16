/** The emission context that every emitter writes into, and the algebra of
    emitted text with wrap points that the emitters' contracts are stated in. */
module Emitter {
  import opened Ast
  import opened FormatPolicy

  /** `k` copies of `c`. */
  function Repeat(c: char, k: nat): (s: string)
    ensures |s| == k
    ensures forall i :: 0 <= i < k ==> s[i] == c
  {
    if k == 0 then "" else [c] + Repeat(c, k - 1)
  }

  /** The text that printIndentation writes at indentation `level`. */
  function IndentText(fmt: Format, level: nat): string
  {
    if fmt.indentWithSpaces then Repeat(' ', level * fmt.indentationSize) else Repeat('\t', level)
  }

  // ---------------------------------------------------------------------------
  // Emitted text with wrap points

  /** Offsets `ms` moved `d` characters to the right. */
  function Shift(ms: seq<nat>, d: nat): seq<nat>
  {
    seq(|ms|, i requires 0 <= i < |ms| => ms[i] + d)
  }

  /** A stretch of output together with the wrap points marked while writing it,
      as offsets from the start of the stretch. */
  datatype Piece = Piece(text: string, marks: seq<nat>) {
    /** This stretch followed by `q`. */
    function Then(q: Piece): Piece
    {
      Piece(text + q.text, marks + Shift(q.marks, |text|))
    }
  }

  /** Plain text, no wrap point. */
  function Text(s: string): Piece
  {
    Piece(s, [])
  }

  /** The argument separator: `", "` and then a wrap point. */
  const Sep: Piece := Piece(", ", [2])

  lemma ShiftAppend(a: seq<nat>, b: seq<nat>, d: nat)
    ensures Shift(a + b, d) == Shift(a, d) + Shift(b, d)
  {
    assert forall i :: 0 <= i < |a + b| ==> Shift(a + b, d)[i] == (Shift(a, d) + Shift(b, d))[i];
  }

  lemma ShiftShift(a: seq<nat>, d: nat, e: nat)
    ensures Shift(Shift(a, d), e) == Shift(a, d + e)
  {
  }

  lemma ThenText(p: Piece, s: string)
    ensures p.Then(Text(s)) == Piece(p.text + s, p.marks)
  {
    assert Shift([], |p.text|) == [];
  }

  lemma EmptyThen(p: Piece)
    ensures Text("").Then(p) == p
  {
    assert Shift(p.marks, 0) == p.marks;
  }

  lemma ThenSep(p: Piece)
    ensures p.Then(Sep) == Piece(p.text + ", ", p.marks + [|p.text| + 2])
  {
    assert Shift([2], |p.text|) == [|p.text| + 2];
  }

  lemma ThenAssoc(p: Piece, q: Piece, s: Piece)
    ensures p.Then(q).Then(s) == p.Then(q.Then(s))
  {
    ShiftAppend(q.marks, Shift(s.marks, |q.text|), |p.text|);
    ShiftShift(s.marks, |q.text|, |p.text|);
    ShiftShift(s.marks, |p.text|, |q.text|);
  }

  /** What ctx.Extends needs after `", "` and a wrap point have been written. */
  lemma ShiftSep(before: string, marksBefore: seq<nat>, p: Piece)
    ensures marksBefore + Shift(p.marks, |before|) + [|before + p.text| + 2]
         == marksBefore + Shift(p.Then(Sep).marks, |before|)
  {
    ThenSep(p);
    ShiftAppend(p.marks, [|p.text| + 2], |before|);
  }

  /** What ctx.Extends needs when one stretch is written after another. */
  lemma ShiftCompose(before: string, marksBefore: seq<nat>, p: Piece, q: Piece)
    ensures before + p.text + q.text == before + p.Then(q).text
    ensures marksBefore + Shift(p.marks, |before|) + Shift(q.marks, |before + p.text|)
         == marksBefore + Shift(p.Then(q).marks, |before|)
  {
    assert before + p.text + q.text == before + (p.text + q.text);
    ShiftAppend(p.marks, Shift(q.marks, |p.text|), |before|);
    ShiftShift(q.marks, |p.text|, |before|);
  }

  // ---------------------------------------------------------------------------
  // Comma-separated lists

  /** The first `k` of `items` as an emitting loop writes them: each one followed by
      the separator unless it is the last of `total` entries. */
  function Listed(items: seq<string>, k: nat, total: nat): Piece
    requires k <= |items|
  {
    if k == 0 then Text("")
    else
      var written := Listed(items, k - 1, total).Then(Text(items[k - 1]));
      if k < total then written.Then(Sep) else written
  }

  /** Reference definition of a separated list: the items in order, the separator between each two. */
  function Joined(items: seq<string>): Piece
  {
    if |items| == 0 then Text("")
    else if |items| == 1 then Text(items[0])
    else Joined(items[..|items| - 1]).Then(Sep).Then(Text(items[|items| - 1]))
  }

  /** A loop that has written `k` entries has written the joined list of those entries,
      with a dangling separator exactly when more entries follow. */
  lemma {:induction false} ListedIsJoined(items: seq<string>, k: nat, total: nat)
    requires 1 <= k <= |items| && k <= total
    ensures Listed(items, k, total)
         == if k < total then Joined(items[..k]).Then(Sep) else Joined(items[..k])
  {
    if k == 1 {
      EmptyThen(Text(items[0]));
      assert items[..1] == [items[0]];
    } else {
      ListedIsJoined(items, k - 1, total);
      assert items[..k][..k - 1] == items[..k - 1];
    }
  }

  /** A finished loop over all entries writes exactly the joined list. */
  lemma ListedAllIsJoined(items: seq<string>)
    ensures Listed(items, |items|, |items|) == Joined(items)
  {
    if |items| > 0 {
      ListedIsJoined(items, |items|, |items|);
      assert items[..|items|] == items;
    }
  }

  /** Joining two non-empty lists with one separator between them joins their concatenation. */
  lemma {:induction false} JoinedConcat(a: seq<string>, b: seq<string>)
    requires |a| >= 1 && |b| >= 1
    ensures Joined(a).Then(Sep).Then(Joined(b)) == Joined(a + b)
  {
    var ab := a + b;
    if |b| == 1 {
      assert ab[..|ab| - 1] == a;
    } else {
      var init := b[..|b| - 1];
      var last := b[|b| - 1];
      JoinedConcat(a, init);
      assert ab[..|ab| - 1] == a + init;
      assert ab[|ab| - 1] == last;
      var ja := Joined(a).Then(Sep);
      calc {
        ja.Then(Joined(b));
        ja.Then(Joined(init).Then(Sep).Then(Text(last)));
        { ThenAssoc(Joined(init), Sep, Text(last)); }
        ja.Then(Joined(init).Then(Sep.Then(Text(last))));
        { ThenAssoc(ja, Joined(init), Sep.Then(Text(last))); }
        ja.Then(Joined(init)).Then(Sep.Then(Text(last)));
        { ThenAssoc(ja.Then(Joined(init)), Sep, Text(last)); }
        ja.Then(Joined(init)).Then(Sep).Then(Text(last));
        Joined(a + init).Then(Sep).Then(Text(last));
        Joined(ab);
      }
    }
  }

  /** A joined list of n entries carries n - 1 wrap points, each placed right after a `", "`. */
  lemma {:induction false} JoinedMarks(items: seq<string>)
    ensures |Joined(items).marks| == if |items| == 0 then 0 else |items| - 1
    ensures forall i :: 0 <= i < |Joined(items).marks| ==>
              2 <= Joined(items).marks[i] <= |Joined(items).text| &&
              Joined(items).text[Joined(items).marks[i] - 2 .. Joined(items).marks[i]] == ", "
  {
    if |items| >= 2 {
      var init := items[..|items| - 1];
      var j := Joined(init);
      JoinedMarks(init);
      ThenSep(j);
      ThenText(j.Then(Sep), items[|items| - 1]);
      var p := Joined(items);
      assert p.text == j.text + ", " + items[|items| - 1];
      assert p.marks == j.marks + [|j.text| + 2];
      forall i | 0 <= i < |p.marks|
        ensures 2 <= p.marks[i] <= |p.text| && p.text[p.marks[i] - 2 .. p.marks[i]] == ", "
      {
        if i < |j.marks| {
          assert p.marks[i] == j.marks[i];
          assert p.text[p.marks[i] - 2 .. p.marks[i]] == j.text[j.marks[i] - 2 .. j.marks[i]];
        } else {
          assert p.marks[i] == |j.text| + 2;
        }
      }
    }
  }

  // ---------------------------------------------------------------------------
  // What the context delegates to code outside this model

  /** The special rewriters registered for Kotlin instance calls. */
  datatype SpecialKind = StringConcat | ListContains | MapGet | MapPut

  /** What a special rewriter reports, and the text it wrote while doing so. */
  datatype SpecialResult = SpecialResult(handled: bool, text: string)

  /** Rendering that dispatches through the emitter registry, descriptor parsing and the
      special rewriters: all outside this model, so each is an arbitrary function. */
  datatype Renderers = Renderers(
    emit: (Instruction, TypeSig) -> string,          // ctx.emit(insn, type)
    emitStatement: (Statement, bool) -> string,      // ctx.emit(stmt, semicolon)
    emitCondition: Condition -> string,              // ctx.emit(condition)
    emitBody: (seq<Statement>, nat) -> string,       // ctx.emitBody(block) at an indentation level
    emitType: string -> string,                      // ctx.emitType(descriptor)
    splitSig: string -> seq<string>,                 // TypeHelper.splitSig(methodDescriptor)
    special: (SpecialKind, Invoke, TypeSig) -> SpecialResult)

  /** The method being emitted. */
  datatype MethodEntry = MethodEntry(isStatic: bool)

  /** The enclosing declaration: the enclosing type's internal name and the enclosing method, each possibly absent. */
  datatype Scope = Scope(enclosingType: Option<string>, enclosingMethod: Option<MethodEntry>)

  /** What one emitter call writes, and how it ends. */
  datatype Emission = Emission(piece: Piece, outcome: Outcome)

  /** The per-declaration emission state. */
  class EmitterContext {
    const format: Format
    const renderers: Renderers
    const scope: Scope
    var out: string
    var indentation: nat
    var wrapPoints: seq<nat>

    /** The output is `before` followed by `p`, and the wrap points are `marksBefore`
        followed by `p`'s marks placed where `p` starts. */
    ghost predicate Extends(before: string, marksBefore: seq<nat>, p: Piece)
      reads this
    {
      out == before + p.text && wrapPoints == marksBefore + Shift(p.marks, |before|)
    }

    constructor (format: Format, renderers: Renderers, scope: Scope)
      ensures this.format == format && this.renderers == renderers && this.scope == scope
      ensures out == "" && indentation == 0 && wrapPoints == []
    {
      this.format := format;
      this.renderers := renderers;
      this.scope := scope;
      out := "";
      indentation := 0;
      wrapPoints := [];
    }

    method PrintString(s: string)
      modifies this`out
      ensures out == old(out) + s
    {
      out := out + s;
    }

    /** printString(s, condition): `s` only when the format switch is on. */
    method PrintStringIf(s: string, condition: bool)
      modifies this`out
      ensures out == old(out) + (if condition then s else "")
    {
      if condition {
        out := out + s;
      }
    }

    method NewLine()
      modifies this`out
      ensures out == old(out) + "\n"
    {
      out := out + "\n";
    }

    method PrintIndentation()
      modifies this`out
      ensures out == old(out) + IndentText(format, indentation)
    {
      out := out + IndentText(format, indentation);
    }

    method Indent()
      modifies this`indentation
      ensures indentation == old(indentation) + 1
    {
      indentation := indentation + 1;
    }

    /** Lowering the indentation below zero is an internal-consistency failure. */
    method Dedent()
      requires indentation > 0
      modifies this`indentation
      ensures indentation == old(indentation) - 1
    {
      indentation := indentation - 1;
    }

    /** Records the current end of the output as a place where a line may later be broken. */
    method MarkWrapPoint()
      modifies this`wrapPoints
      ensures wrapPoints == old(wrapPoints) + [|out|]
    {
      wrapPoints := wrapPoints + [|out|];
    }

    method Emit(insn: Instruction, expected: TypeSig)
      modifies this`out
      ensures out == old(out) + renderers.emit(insn, expected)
    {
      out := out + renderers.emit(insn, expected);
    }

    method EmitStatement(stmt: Statement, semicolon: bool)
      modifies this`out
      ensures out == old(out) + renderers.emitStatement(stmt, semicolon)
    {
      out := out + renderers.emitStatement(stmt, semicolon);
    }

    method EmitCondition(cond: Condition)
      modifies this`out
      ensures out == old(out) + renderers.emitCondition(cond)
    {
      out := out + renderers.emitCondition(cond);
    }

    /** The statements of a block, each at the current indentation. */
    method EmitBody(body: seq<Statement>)
      modifies this`out
      ensures out == old(out) + renderers.emitBody(body, indentation)
    {
      out := out + renderers.emitBody(body, indentation);
    }

    method EmitType(descriptor: string)
      modifies this`out
      ensures out == old(out) + renderers.emitType(descriptor)
    {
      out := out + renderers.emitType(descriptor);
    }
  }
}
