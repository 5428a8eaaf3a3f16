/** A `for` statement: a header whose spacing the format decides, then the body's
    block, left out entirely when the body is empty. */
module ForEmitter {
  import opened Ast
  import opened FormatPolicy
  import opened Emitter

  /** A single space when the switch is on. */
  function Space(on: bool): string
  {
    if on then " " else ""
  }

  /** An optional init or increment statement, rendered without its own semicolon. */
  function Part(r: Renderers, stmt: Option<Statement>): string
  {
    match stmt
    case None => ""
    case Some(s) => r.emitStatement(s, false)
  }

  /** `for (init; condition; incr) {` and the line break after it. */
  function Header(fmt: Format, r: Renderers, loop: For): string
  {
    "for" + Space(fmt.spaceBeforeOpeningParenInFor) + "(" + Space(fmt.spaceAfterOpeningParenInFor)
    + Part(r, loop.init) + "; " + r.emitCondition(loop.condition) + "; " + Part(r, loop.incr)
    + ") {" + "\n"
  }

  /** The body one level deeper and a line break, or nothing for an empty body. */
  function Block(r: Renderers, body: seq<Statement>, level: nat): string
  {
    if |body| == 0 then "" else r.emitBody(body, level + 1) + "\n"
  }

  /** Everything ForEmitter.emit writes at indentation `level`. */
  function Loop(fmt: Format, r: Renderers, loop: For, level: nat): string
  {
    Header(fmt, r, loop) + Block(r, loop.body, level) + IndentText(fmt, level) + "}"
  }

  /** Indentation is made of blanks and tabs only. */
  lemma IndentHasNoLineBreak(fmt: Format, level: nat)
    ensures forall i :: 0 <= i < |IndentText(fmt, level)| ==> IndentText(fmt, level)[i] in {' ', '\t'}
  {
  }

  /** The output begins `for`, then a blank exactly when the format asks for one before the
      parenthesis, then `(`; it ends with `}` and so never with a `;`. */
  lemma LoopShape(fmt: Format, r: Renderers, loop: For, level: nat)
    ensures var s := Loop(fmt, r, loop, level);
      |s| > 5 && s[..3] == "for" &&
      (s[3] == ' ' <==> fmt.spaceBeforeOpeningParenInFor) &&
      s[3 + |Space(fmt.spaceBeforeOpeningParenInFor)|] == '(' &&
      s[|s| - 1] == '}' && s[|s| - 1] != ';'
  {
  }

  /** The header always ends with `) {` and a line break, whatever the init and increment are. */
  lemma HeaderEnds(fmt: Format, r: Renderers, loop: For)
    ensures var h := Header(fmt, r, loop);
      |h| >= 4 && h[|h| - 4..] == ") {\n"
  {
  }

  /** An empty body leaves no blank indented line: after the header's line break come only
      the indentation and the closing brace, with no further line break. */
  lemma EmptyBodyNormalised(fmt: Format, r: Renderers, loop: For, level: nat)
    requires |loop.body| == 0
    ensures var s := Loop(fmt, r, loop, level);
            var h := Header(fmt, r, loop);
      s == h + IndentText(fmt, level) + "}" &&
      forall i :: |h| <= i < |s| ==> s[i] != '\n'
  {
    var s := Loop(fmt, r, loop, level);
    var h := Header(fmt, r, loop);
    var ind := IndentText(fmt, level);
    IndentHasNoLineBreak(fmt, level);
    forall i | |h| <= i < |s|
      ensures s[i] != '\n'
    {
      if i < |h| + |ind| {
        assert s[i] == ind[i - |h|];
      }
    }
  }

  /** With every switch off, `for (i=0; i<10; i++)` around one statement reads
      `for(i=0; i<10; i++) {`, the indented statement, a line break and `}`. */
  lemma CountingLoop(r: Renderers, init: Statement, cond: Condition, incr: Statement, stmt: Statement)
    requires r.emitStatement(init, false) == "i=0" && r.emitCondition(cond) == "i<10"
    requires r.emitStatement(incr, false) == "i++" && r.emitBody([stmt], 1) == "\tfoo();"
    ensures Loop(Default, r, For(Some(init), cond, Some(incr), [stmt]), 0) == "for(i=0; i<10; i++) {\n\tfoo();\n}"
  {
  }

  /** Prepending a prefix to the header reassociates: the output after the header's calls
      is the prefix followed by the pieces one by one. */
  lemma HeaderAfter(before: string, fmt: Format, r: Renderers, loop: For)
    ensures before + Header(fmt, r, loop)
         == before + "for" + Space(fmt.spaceBeforeOpeningParenInFor) + "(" + Space(fmt.spaceAfterOpeningParenInFor)
            + Part(r, loop.init) + "; " + r.emitCondition(loop.condition) + "; " + Part(r, loop.incr)
            + ") {" + "\n"
  {
    var h0 := "for";
    var h1 := h0 + Space(fmt.spaceBeforeOpeningParenInFor);
    var h2 := h1 + "(";
    var h3 := h2 + Space(fmt.spaceAfterOpeningParenInFor);
    var h4 := h3 + Part(r, loop.init);
    var h5 := h4 + "; ";
    var h6 := h5 + r.emitCondition(loop.condition);
    var h7 := h6 + "; ";
    var h8 := h7 + Part(r, loop.incr);
    var h9 := h8 + ") {";
    Assoc(before, h9, "\n");
    Assoc(before, h8, ") {");
    Assoc(before, h7, Part(r, loop.incr));
    Assoc(before, h6, "; ");
    Assoc(before, h5, r.emitCondition(loop.condition));
    Assoc(before, h4, "; ");
    Assoc(before, h3, Part(r, loop.init));
    Assoc(before, h2, Space(fmt.spaceAfterOpeningParenInFor));
    Assoc(before, h1, "(");
    Assoc(before, h0, Space(fmt.spaceBeforeOpeningParenInFor));
  }

  lemma Assoc(a: string, b: string, c: string)
    ensures a + (b + c) == a + b + c
  {
  }

  lemma LoopAfter(before: string, header: string, block: string, indent: string)
    ensures before + (header + block + indent + "}") == before + header + block + indent + "}"
  {
  }

  /** The init or increment clause: written only when present, without a semicolon. */
  method EmitPart(ctx: EmitterContext, stmt: Option<Statement>)
    modifies ctx`out
    ensures ctx.out == old(ctx.out) + Part(ctx.renderers, stmt)
  {
    if stmt.Some? {
      ctx.EmitStatement(stmt.value, false);
    } else {
      assert ctx.out + "" == ctx.out;
    }
  }

  /** The body one level deeper and a line break; nothing at all for an empty body. */
  method EmitBlock(ctx: EmitterContext, body: seq<Statement>)
    modifies ctx`out, ctx`indentation
    ensures ctx.out == old(ctx.out) + Block(ctx.renderers, body, old(ctx.indentation))
    ensures ctx.indentation == old(ctx.indentation)
  {
    if |body| != 0 {
      ctx.Indent();
      ctx.EmitBody(body);
      ctx.Dedent();
      ctx.NewLine();
    } else {
      assert ctx.out + "" == ctx.out;
    }
  }

  /** ForEmitter.emit. The semicolon flag is ignored; indentation is back where it started. */
  method Emit(ctx: EmitterContext, loop: For, semicolon: bool)
    modifies ctx`out, ctx`indentation
    ensures ctx.out == old(ctx.out) + Loop(ctx.format, ctx.renderers, loop, old(ctx.indentation))
    ensures ctx.indentation == old(ctx.indentation)
  {
    ctx.PrintString("for");
    ctx.PrintStringIf(" ", ctx.format.spaceBeforeOpeningParenInFor);
    ctx.PrintString("(");
    ctx.PrintStringIf(" ", ctx.format.spaceAfterOpeningParenInFor);
    EmitPart(ctx, loop.init);
    ctx.PrintString("; ");
    ctx.EmitCondition(loop.condition);
    ctx.PrintString("; ");
    EmitPart(ctx, loop.incr);
    ctx.PrintString(") {");
    ctx.NewLine();
    HeaderAfter(old(ctx.out), ctx.format, ctx.renderers, loop);
    EmitBlock(ctx, loop.body);
    ctx.PrintIndentation();
    ctx.PrintString("}");
    LoopAfter(old(ctx.out), Header(ctx.format, ctx.renderers, loop),
              Block(ctx.renderers, loop.body, ctx.indentation), IndentText(ctx.format, ctx.indentation));
  }
}
