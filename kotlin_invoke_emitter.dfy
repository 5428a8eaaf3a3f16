/** A Kotlin instance method call: a special rewriter when one is registered and accepts
    the call, otherwise the call target (`this`/`super` for constructors, a receiver and
    the method name for the rest) and the argument list, a trailing array built on the spot
    being spread into variadic arguments. */
module KotlinInvoke {
  import opened Ast
  import opened Emitter

  // ---------------------------------------------------------------------------
  // The static tables, keyed by owner descriptor followed by method name

  /** The tables of the emitter: calls printed without a receiver, property-style calls printed
      without a parameter list, and the special rewriters. */
  datatype Tables = Tables(noCallee: set<string>, noParams: set<string>, special: map<string, SpecialKind>)

  /** The tables as the emitter's static initializer fills them; the map-get rewriter also
      serves `HashMap.get` and `String.charAt`. */
  const Registered: Tables := Tables(
    {"Ljava/io/PrintStream;println", "Ljava/io/PrintStream;print"},
    {"Ljava/lang/String;length"},
    map[
      "Ljava/lang/StringBuilder;toString" := StringConcat,
      "Ljava/util/List;contains" := ListContains,
      "Ljava/util/Map;get" := MapGet,
      "Ljava/util/HashMap;get" := MapGet,
      "Ljava/lang/String;charAt" := MapGet,
      "Ljava/util/Map;put" := MapPut,
      "Ljava/util/HashMap;put" := MapPut])

  /** The table key of a call. */
  function Key(arg: Invoke): string
  {
    arg.owner + arg.methodName
  }

  /** No key is in two tables, and no key names a constructor. */
  lemma TablesDisjoint(owner: string)
    ensures Registered.noCallee !! Registered.noParams
    ensures forall k :: k in Registered.special ==> k !in Registered.noCallee && k !in Registered.noParams
    ensures var k := owner + "<init>";
      k !in Registered.noCallee && k !in Registered.noParams && k !in Registered.special
  {
    var k := owner + "<init>";
    assert k[|k| - 1] == '>';
  }

  // ---------------------------------------------------------------------------
  // The call target

  /** What the registered rewriter reports; a call with no rewriter is declined with no text. */
  function Attempt(t: Tables, r: Renderers, arg: Invoke, expected: TypeSig): SpecialResult
  {
    if Key(arg) in t.special then r.special(t.special[Key(arg)], arg, expected) else SpecialResult(false, "")
  }

  /** `this.` is implied: the callee is local slot 0 of an instance method. */
  predicate OnSelf(scope: Scope, callee: Instruction)
  {
    callee.LocalAccess? && callee.index == 0 && scope.enclosingMethod.Some? && !scope.enclosingMethod.value.isStatic
  }

  /** The text before the method name of a call that is not a constructor call. */
  function Receiver(t: Tables, scope: Scope, r: Renderers, arg: Invoke): string
  {
    if Key(arg) in t.noCallee then ""
    else if arg.callee.LocalAccess? && scope.enclosingMethod.Some? && !scope.enclosingMethod.value.isStatic then
      if arg.callee.index == 0 then
        (if scope.enclosingType.Some? && arg.ownerName != scope.enclosingType.value then "super." else "")
      else r.emit(arg.callee, NoType) + "."
    else r.emit(arg.callee, OfDescriptor(arg.owner)) + "."
  }

  /** What is printed before the argument list. */
  function Head(t: Tables, scope: Scope, r: Renderers, arg: Invoke): string
  {
    if arg.methodName == "<init>" then
      (if scope.enclosingType.Some? && arg.ownerName == scope.enclosingType.value then "this" else "super")
    else Receiver(t, scope, r, arg) + arg.methodName
  }

  // ---------------------------------------------------------------------------
  // The argument list

  /** The last argument is an array built on the spot, whose elements are spread in its place. */
  predicate SpreadsLast(params: seq<Instruction>)
  {
    |params| > 0 && params[|params| - 1].NewArray?
  }

  /** The number of arguments rendered one by one against their declared types. */
  function FixedCount(params: seq<Instruction>): (n: nat)
    ensures n <= |params|
  {
    if SpreadsLast(params) then |params| - 1 else |params|
  }

  function Min(a: nat, b: nat): nat
  {
    if a < b then a else b
  }

  /** The renderings of the arguments before any spread array, each against its declared
      parameter type, as far as the declared types reach. */
  function FixedEntries(r: Renderers, params: seq<Instruction>, types: seq<string>): seq<string>
  {
    var k := Min(FixedCount(params), |types|);
    seq(k, j requires 0 <= j < k => r.emit(params[j], OfDescriptor(types[j])))
  }

  /** The renderings of an array's initializer elements, each against the array's element type. */
  function Elements(r: Renderers, varargs: Instruction): seq<string>
    requires varargs.NewArray?
  {
    seq(|varargs.initializer|, o requires 0 <= o < |varargs.initializer| => r.emit(varargs.initializer[o], varargs.elemType))
  }

  /** The spread elements of a trailing array, or none. */
  function SpreadEntries(r: Renderers, params: seq<Instruction>): seq<string>
  {
    if SpreadsLast(params) then Elements(r, params[|params| - 1]) else []
  }

  /** Every entry of a completed argument list, in order. */
  function Entries(r: Renderers, params: seq<Instruction>, types: seq<string>): seq<string>
  {
    FixedEntries(r, params, types) + SpreadEntries(r, params)
  }

  /** What the argument loop writes: the fixed arguments as the loop lists them, then the
      spread elements; an argument past the declared types throws IndexOutOfBoundsException. */
  function Arguments(r: Renderers, params: seq<Instruction>, types: seq<string>): Emission
  {
    var fixed := FixedEntries(r, params, types);
    var written := Listed(fixed, |fixed|, |params|);
    if FixedCount(params) > |types| then Emission(written, Thrown(IndexOutOfBounds))
    else
      var spread := SpreadEntries(r, params);
      Emission(written.Then(Listed(spread, |spread|, |spread|)), Done)
  }

  /** The arguments in parentheses; the closing one is missing when the loop throws. */
  function ArgumentList(r: Renderers, arg: Invoke): Emission
  {
    var a := Arguments(r, arg.params, r.splitSig(arg.methodDesc));
    Emission(Text("(").Then(a.piece).Then(Text(if a.outcome.Done? then ")" else "")), a.outcome)
  }

  /** Everything KotlinInstanceMethodInvokeEmitter.emit writes, and how it ends. */
  function Invocation(t: Tables, scope: Scope, r: Renderers, arg: Invoke, expected: TypeSig): Emission
  {
    var tried := Attempt(t, r, arg, expected);
    if tried.handled then Emission(Text(tried.text), Done)
    else
      var head := Text(tried.text + Head(t, scope, r, arg));
      if Key(arg) in t.noParams then Emission(head, Done)
      else
        var args := ArgumentList(r, arg);
        Emission(head.Then(args.piece), args.outcome)
  }

  // ---------------------------------------------------------------------------
  // The call target, case by case

  /** A rewriter that accepts the call has the last word: nothing follows its text. */
  lemma SpecialHandled(scope: Scope, r: Renderers, arg: Invoke, expected: TypeSig)
    requires Key(arg) in Registered.special && r.special(Registered.special[Key(arg)], arg, expected).handled
    ensures Invocation(Registered, scope, r, arg, expected) == Emission(Text(r.special(Registered.special[Key(arg)], arg, expected).text), Done)
  {
  }

  /** A call no rewriter accepts begins with whatever the rewriter wrote while declining,
      then the call target. */
  lemma SpecialDeclined(scope: Scope, r: Renderers, arg: Invoke, expected: TypeSig)
    requires !Attempt(Registered, r, arg, expected).handled
    ensures var s := Invocation(Registered, scope, r, arg, expected).piece.text;
            var t := Attempt(Registered, r, arg, expected).text + Head(Registered, scope, r, arg);
      |t| <= |s| && s[..|t|] == t
    ensures Key(arg) !in Registered.special ==> Attempt(Registered, r, arg, expected).text == ""
  {
    var t := Attempt(Registered, r, arg, expected).text + Head(Registered, scope, r, arg);
    if Key(arg) !in Registered.noParams {
      var args := ArgumentList(r, arg);
      ThenText(Text(""), t);
      assert Text(t).Then(args.piece).text == t + args.piece.text;
    }
  }

  /** A call that is neither rewritten nor printed as a property is its call target followed
      by its argument list. */
  lemma UnlistedCall(scope: Scope, r: Renderers, arg: Invoke, expected: TypeSig)
    requires Key(arg) !in Registered.special && Key(arg) !in Registered.noParams
    ensures Invocation(Registered, scope, r, arg, expected)
         == Emission(Text(Head(Registered, scope, r, arg)).Then(ArgumentList(r, arg).piece), ArgumentList(r, arg).outcome)
  {
    assert Attempt(Registered, r, arg, expected) == SpecialResult(false, "");
    assert "" + Head(Registered, scope, r, arg) == Head(Registered, scope, r, arg);
  }

  /** A constructor call prints `this` exactly when there is an enclosing type and the owner
      is it, and `super` otherwise; its callee is never rendered, so it makes no difference. */
  lemma ConstructorCall(scope: Scope, r: Renderers, arg: Invoke, expected: TypeSig, other: Instruction)
    requires arg.methodName == "<init>" && !Attempt(Registered, r, arg, expected).handled
    ensures var s := Invocation(Registered, scope, r, arg, expected).piece.text;
            var p := |Attempt(Registered, r, arg, expected).text|;
      |s| >= p + 4 &&
      (s[p..p + 4] == "this" <==> scope.enclosingType.Some? && arg.ownerName == scope.enclosingType.value) &&
      (s[p..p + 4] != "this" ==> |s| >= p + 5 && s[p..p + 5] == "super")
    ensures Key(arg) !in Registered.special ==>
      Invocation(Registered, scope, r, arg, expected) == Invocation(Registered, scope, r, arg.(callee := other), expected)
  {
    SpecialDeclined(scope, r, arg, expected);
    var s := Invocation(Registered, scope, r, arg, expected).piece.text;
    var p := |Attempt(Registered, r, arg, expected).text|;
    var h := Head(Registered, scope, r, arg);
    var t := Attempt(Registered, r, arg, expected).text + h;
    assert s[p..|t|] == h;
    assert s[p..p + 4] == h[..4];
    if scope.enclosingType.Some? && arg.ownerName == scope.enclosingType.value {
      assert h == "this";
    } else {
      assert h == "super";
      assert h[..4][0] == 's';
      assert s[p..p + 5] == h;
    }
  }

  /** `print` and `println` on a PrintStream are printed as bare calls: the method name comes first. */
  lemma BareCall(scope: Scope, r: Renderers, arg: Invoke, expected: TypeSig)
    requires Key(arg) in Registered.noCallee
    ensures arg.methodName != "<init>"
    ensures Invocation(Registered, scope, r, arg, expected)
         == Emission(Text(arg.methodName).Then(ArgumentList(r, arg).piece), ArgumentList(r, arg).outcome)
  {
    TablesDisjoint(arg.owner);
    assert Key(arg) !in Registered.special && Key(arg) !in Registered.noParams;
    assert Attempt(Registered, r, arg, expected) == SpecialResult(false, "");
    assert Head(Registered, scope, r, arg) == arg.methodName by {
      assert Receiver(Registered, scope, r, arg) == "";
    }
    assert "" + arg.methodName == arg.methodName;
  }

  /** On local slot 0 of an instance method nothing is rendered for the receiver: `super.` when
      the owner is not the enclosing type, otherwise just the method name. */
  lemma SelfCall(scope: Scope, r: Renderers, arg: Invoke)
    requires arg.methodName != "<init>" && Key(arg) !in Registered.noCallee && OnSelf(scope, arg.callee)
    ensures Head(Registered, scope, r, arg) == arg.methodName || Head(Registered, scope, r, arg) == "super." + arg.methodName
    ensures Head(Registered, scope, r, arg) == "super." + arg.methodName
        <==> scope.enclosingType.Some? && arg.ownerName != scope.enclosingType.value
    ensures forall r2: Renderers :: Head(Registered, scope, r2, arg) == Head(Registered, scope, r, arg)
  {
    if Head(Registered, scope, r, arg) == "super." + arg.methodName {
      assert |Head(Registered, scope, r, arg)| == |arg.methodName| + 6;
    }
  }

  /** Any other receiver is rendered and followed by `.`: another local of an instance method
      with no expected type, everything else with the owner as the expected type. */
  lemma RenderedReceiver(scope: Scope, r: Renderers, arg: Invoke)
    requires arg.methodName != "<init>" && Key(arg) !in Registered.noCallee && !OnSelf(scope, arg.callee)
    ensures var local := arg.callee.LocalAccess? && scope.enclosingMethod.Some? && !scope.enclosingMethod.value.isStatic;
      Head(Registered, scope, r, arg)
        == r.emit(arg.callee, if local then NoType else OfDescriptor(arg.owner)) + "." + arg.methodName
  {
  }

  /** `String.length` is printed as a property: the output ends at the method name. */
  lemma PropertyCall(scope: Scope, r: Renderers, arg: Invoke, expected: TypeSig)
    requires Key(arg) in Registered.noParams
    ensures arg.methodName != "<init>"
    ensures Invocation(Registered, scope, r, arg, expected) == Emission(Text(Receiver(Registered, scope, r, arg) + arg.methodName), Done)
  {
    TablesDisjoint(arg.owner);
    assert Attempt(Registered, r, arg, expected) == SpecialResult(false, "");
    assert "" + Head(Registered, scope, r, arg) == Head(Registered, scope, r, arg);
  }

  // ---------------------------------------------------------------------------
  // The argument list

  lemma ThenNothing(p: Piece)
    ensures p.Then(Text("")) == p
  {
    ThenText(p, "");
    assert p.text + "" == p.text;
  }

  /** The argument loop throws exactly when an argument before any spread array has no
      declared type; it has then written every argument that has one, each followed by the
      separator, and no closing parenthesis. */
  lemma ArgumentsThrow(r: Renderers, arg: Invoke)
    ensures var types := r.splitSig(arg.methodDesc);
            var e := Arguments(r, arg.params, types);
      (e.outcome.Thrown? <==> FixedCount(arg.params) > |types|) &&
      (e.outcome.Thrown? ==>
         e.outcome == Thrown(IndexOutOfBounds) &&
         |FixedEntries(r, arg.params, types)| == |types| &&
         e.piece == (if |types| == 0 then Text("") else Joined(FixedEntries(r, arg.params, types)).Then(Sep)) &&
         ArgumentList(r, arg).piece == Text("(").Then(e.piece))
  {
    var types := r.splitSig(arg.methodDesc);
    var e := Arguments(r, arg.params, types);
    var fixed := FixedEntries(r, arg.params, types);
    if e.outcome.Thrown? {
      if |types| > 0 {
        ListedIsJoined(fixed, |fixed|, |arg.params|);
        assert fixed[..|fixed|] == fixed;
      }
      ThenNothing(Text("(").Then(e.piece));
    }
  }

  /** A completed argument list is every entry in order, one separator between each two,
      unless a trailing array with no elements follows other arguments. */
  lemma ArgumentsJoined(r: Renderers, params: seq<Instruction>, types: seq<string>)
    requires FixedCount(params) <= |types|
    requires !(SpreadsLast(params) && |params| >= 2 && |params[|params| - 1].initializer| == 0)
    ensures Arguments(r, params, types) == Emission(Joined(Entries(r, params, types)), Done)
  {
    var fixed := FixedEntries(r, params, types);
    var spread := SpreadEntries(r, params);
    var n := |params|;
    var written := Listed(fixed, |fixed|, n);
    ListedAllIsJoined(spread);
    if !SpreadsLast(params) {
      ListedAllIsJoined(fixed);
      ThenNothing(written);
      assert fixed + spread == fixed;
    } else if n == 1 {
      EmptyThen(Joined(spread));
      assert fixed + spread == spread;
    } else {
      ListedIsJoined(fixed, |fixed|, n);
      assert fixed[..|fixed|] == fixed;
      JoinedConcat(fixed, spread);
    }
  }

  /** A trailing array with no elements after other arguments leaves the separator before it dangling. */
  lemma ArgumentsDangling(r: Renderers, params: seq<Instruction>, types: seq<string>)
    requires FixedCount(params) <= |types|
    requires SpreadsLast(params) && |params| >= 2 && |params[|params| - 1].initializer| == 0
    ensures Arguments(r, params, types) == Emission(Joined(FixedEntries(r, params, types)).Then(Sep), Done)
    ensures Entries(r, params, types) == FixedEntries(r, params, types)
  {
    var fixed := FixedEntries(r, params, types);
    ListedIsJoined(fixed, |fixed|, |params|);
    assert fixed[..|fixed|] == fixed;
    ThenNothing(Joined(fixed).Then(Sep));
    assert SpreadEntries(r, params) == [];
  }

  /** A completed list of n fixed arguments has n - 1 wrap points; a trailing array of m >= 1
      elements after f fixed ones gives f + m - 1; each wrap point comes right after `", "`. */
  lemma ArgumentWrapPoints(r: Renderers, params: seq<Instruction>, types: seq<string>)
    requires FixedCount(params) <= |types|
    ensures var p := Arguments(r, params, types).piece;
      (!SpreadsLast(params) ==> |p.marks| == if |params| == 0 then 0 else |params| - 1) &&
      (SpreadsLast(params) && |params[|params| - 1].initializer| >= 1 ==>
         |p.marks| == |params| - 1 + |params[|params| - 1].initializer| - 1) &&
      forall i :: 0 <= i < |p.marks| ==> 2 <= p.marks[i] <= |p.text| && p.text[p.marks[i] - 2 .. p.marks[i]] == ", "
  {
    var fixed := FixedEntries(r, params, types);
    if SpreadsLast(params) && |params| >= 2 && |params[|params| - 1].initializer| == 0 {
      ArgumentsDangling(r, params, types);
      JoinedMarks(fixed);
      ThenSep(Joined(fixed));
      var j := Joined(fixed);
      var p := j.Then(Sep);
      forall i | 0 <= i < |p.marks|
        ensures 2 <= p.marks[i] <= |p.text| && p.text[p.marks[i] - 2 .. p.marks[i]] == ", "
      {
        if i < |j.marks| {
          assert p.text[p.marks[i] - 2 .. p.marks[i]] == j.text[j.marks[i] - 2 .. j.marks[i]];
        }
      }
    } else {
      ArgumentsJoined(r, params, types);
      JoinedMarks(Entries(r, params, types));
    }
  }

  /** The arguments `s, a, b`: one fixed argument and a trailing array of two elements,
      with a wrap point after each separator. */
  lemma SpreadArguments(r: Renderers, msg: Instruction, a: Instruction, b: Instruction, elem: TypeSig)
    requires r.emit(msg, OfDescriptor("Ljava/lang/String;")) == "s"
    requires r.emit(a, elem) == "a" && r.emit(b, elem) == "b"
    ensures Arguments(r, [msg, NewArray(elem, [a, b])], ["Ljava/lang/String;", "[Ljava/lang/Object;"])
         == Emission(Piece("s, a, b", [3, 6]), Done)
  {
    var params := [msg, NewArray(elem, [a, b])];
    var types := ["Ljava/lang/String;", "[Ljava/lang/Object;"];
    assert FixedEntries(r, params, types) == ["s"];
    assert Elements(r, params[1]) == ["a", "b"];
    assert Entries(r, params, types) == ["s", "a", "b"];
    ArgumentsJoined(r, params, types);
    var j1 := Joined(["s"]);
    var j2 := Joined(["s", "a"]);
    assert ["s", "a", "b"][..2] == ["s", "a"];
    assert ["s", "a"][..1] == ["s"];
    ThenSep(j1);
    ThenText(j1.Then(Sep), "a");
    assert j2 == Piece("s, a", [3]);
    ThenSep(j2);
    ThenText(j2.Then(Sep), "b");
  }

  /** A call on local slot 1 of an instance method renders that local as its receiver. */
  lemma LocalReceiverHead(scope: Scope, r: Renderers, call: Invoke)
    requires scope.enclosingMethod == Some(MethodEntry(false)) && call.callee == LocalAccess(1)
    requires call.owner == "Lcom/example/Log;" && call.methodName == "info"
    requires r.emit(LocalAccess(1), NoType) == "log"
    ensures Key(call) == "Lcom/example/Log;info"
    ensures Head(Registered, scope, r, call) == "log.info"
  {
  }

  /** The argument list of `log.info(s, a, b)`. */
  lemma SpreadArgumentList(r: Renderers, call: Invoke, msg: Instruction, a: Instruction, b: Instruction, elem: TypeSig)
    requires call.methodDesc == "(Ljava/lang/String;[Ljava/lang/Object;)V" && call.params == [msg, NewArray(elem, [a, b])]
    requires r.splitSig("(Ljava/lang/String;[Ljava/lang/Object;)V") == ["Ljava/lang/String;", "[Ljava/lang/Object;"]
    requires r.emit(msg, OfDescriptor("Ljava/lang/String;")) == "s"
    requires r.emit(a, elem) == "a" && r.emit(b, elem) == "b"
    ensures ArgumentList(r, call) == Emission(Piece("(s, a, b)", [4, 7]), Done)
  {
    SpreadArguments(r, msg, a, b, elem);
    var open := Text("(").Then(Piece("s, a, b", [3, 6]));
    assert Shift([3, 6], 1) == [4, 7];
    assert open == Piece("(s, a, b", [4, 7]);
    ThenText(open, ")");
  }

  /** `log.info(s, a, b)`: a call on local slot 1 of an instance method, its trailing array
      spread after the fixed argument. */
  lemma SpreadCall(scope: Scope, r: Renderers, call: Invoke, msg: Instruction, a: Instruction, b: Instruction,
                   elem: TypeSig, expected: TypeSig)
    requires call == Invoke("Lcom/example/Log;", "com/example/Log", "info", "(Ljava/lang/String;[Ljava/lang/Object;)V",
                            LocalAccess(1), [msg, NewArray(elem, [a, b])])
    requires scope.enclosingMethod == Some(MethodEntry(false))
    requires r.splitSig("(Ljava/lang/String;[Ljava/lang/Object;)V") == ["Ljava/lang/String;", "[Ljava/lang/Object;"]
    requires r.emit(LocalAccess(1), NoType) == "log" && r.emit(msg, OfDescriptor("Ljava/lang/String;")) == "s"
    requires r.emit(a, elem) == "a" && r.emit(b, elem) == "b"
    ensures Invocation(Registered, scope, r, call, expected) == Emission(Piece("log.info(s, a, b)", [12, 15]), Done)
  {
    LocalReceiverHead(scope, r, call);
    UnlistedCall(scope, r, call, expected);
    SpreadArgumentList(r, call, msg, a, b, elem);
    SpreadCallText();
  }

  lemma SpreadCallText()
    ensures Text("log.info").Then(Piece("(s, a, b)", [4, 7])) == Piece("log.info(s, a, b)", [12, 15])
  {
    assert Shift([4, 7], 8) == [12, 15];
  }

  // ---------------------------------------------------------------------------
  // The emitter

  /** A special rewriter run on the context: writes its text and reports whether it took the call. */
  method RunSpecial(ctx: EmitterContext, kind: SpecialKind, arg: Invoke, expected: TypeSig) returns (handled: bool)
    modifies ctx`out
    ensures ctx.out == old(ctx.out) + ctx.renderers.special(kind, arg, expected).text
    ensures handled == ctx.renderers.special(kind, arg, expected).handled
  {
    var result := ctx.renderers.special(kind, arg, expected);
    ctx.PrintString(result.text);
    handled := result.handled;
  }

  /** One argument: its rendering, then `", "` and a wrap point when more follow. */
  method EmitEntry(ctx: EmitterContext, ghost before: string, ghost marks: seq<nat>, ghost p: Piece,
                   insn: Instruction, expected: TypeSig, more: bool)
    requires ctx.Extends(before, marks, p)
    modifies ctx`out, ctx`wrapPoints
    ensures var q := p.Then(Text(ctx.renderers.emit(insn, expected)));
      ctx.Extends(before, marks, if more then q.Then(Sep) else q)
  {
    ctx.Emit(insn, expected);
    ghost var q := p.Then(Text(ctx.renderers.emit(insn, expected)));
    ThenText(p, ctx.renderers.emit(insn, expected));
    assert ctx.Extends(before, marks, q);
    if more {
      ctx.PrintString(", ");
      ctx.MarkWrapPoint();
      ShiftSep(before, marks, q);
      ThenSep(q);
    }
  }

  /** The inner loop: the elements of a trailing array, each against the element type,
      after the arguments already written. */
  method EmitSpread(ctx: EmitterContext, ghost before: string, ghost marks: seq<nat>, ghost written: Piece,
                    varargs: Instruction)
    requires varargs.NewArray? && ctx.Extends(before, marks, written)
    modifies ctx`out, ctx`wrapPoints
    ensures var spread := Elements(ctx.renderers, varargs);
      ctx.Extends(before, marks, written.Then(Listed(spread, |spread|, |spread|)))
  {
    ghost var mid, midMarks := ctx.out, ctx.wrapPoints;
    ghost var spread := Elements(ctx.renderers, varargs);
    var elements := varargs.initializer;
    var o := 0;
    assert ctx.Extends(mid, midMarks, Listed(spread, 0, |spread|));
    while o < |elements|
      invariant 0 <= o <= |elements|
      invariant ctx.Extends(mid, midMarks, Listed(spread, o, |spread|))
    {
      EmitEntry(ctx, mid, midMarks, Listed(spread, o, |spread|), elements[o], varargs.elemType, o < |elements| - 1);
      o := o + 1;
    }
    ShiftCompose(before, marks, written, Listed(spread, o, |spread|));
  }

  /** The outer loop: fixed arguments against their declared types until a trailing array,
      whose elements are spread before the loop stops. */
  method EmitArguments(ctx: EmitterContext, params: seq<Instruction>, types: seq<string>) returns (outcome: Outcome)
    modifies ctx`out, ctx`wrapPoints
    ensures var e := Arguments(ctx.renderers, params, types);
      outcome == e.outcome && ctx.Extends(old(ctx.out), old(ctx.wrapPoints), e.piece)
  {
    ghost var before, marks := ctx.out, ctx.wrapPoints;
    ghost var r := ctx.renderers;
    ghost var fixed := FixedEntries(r, params, types);
    var n := |params|;
    var i := 0;
    assert ctx.Extends(before, marks, Listed(fixed, 0, n));
    while i < n
      invariant i <= FixedCount(params) && i <= |types|
      invariant ctx.Extends(before, marks, Listed(fixed, i, n))
    {
      var param := params[i];
      if i == n - 1 && param.NewArray? {
        assert SpreadsLast(params) && |fixed| == i;
        EmitSpread(ctx, before, marks, Listed(fixed, i, n), param);
        return Done;
      }
      assert i < FixedCount(params);
      if i >= |types| {
        assert |fixed| == i;
        return Thrown(IndexOutOfBounds);
      }
      assert fixed[i] == r.emit(param, OfDescriptor(types[i]));
      EmitEntry(ctx, before, marks, Listed(fixed, i, n), param, OfDescriptor(types[i]), i < n - 1);
      i := i + 1;
    }
    assert !SpreadsLast(params) && |fixed| == n;
    assert SpreadEntries(r, params) == [];
    ThenNothing(Listed(fixed, i, n));
    outcome := Done;
  }

  /** The parenthesised argument list, the closing parenthesis only when the loop completes. */
  method EmitArgumentList(ctx: EmitterContext, arg: Invoke) returns (outcome: Outcome)
    modifies ctx`out, ctx`wrapPoints
    ensures var e := ArgumentList(ctx.renderers, arg);
      outcome == e.outcome && ctx.Extends(old(ctx.out), old(ctx.wrapPoints), e.piece)
  {
    ghost var before, marks := ctx.out, ctx.wrapPoints;
    ctx.PrintString("(");
    ghost var open := Text("(");
    assert marks + Shift([], |before|) == marks;
    assert ctx.Extends(before, marks, open);
    var types := ctx.renderers.splitSig(arg.methodDesc);
    ghost var args := Arguments(ctx.renderers, arg.params, types);
    outcome := EmitArguments(ctx, arg.params, types);
    ShiftCompose(before, marks, open, args.piece);
    ghost var inside := open.Then(args.piece);
    assert ctx.Extends(before, marks, inside);
    ghost var closing := if outcome.Done? then ")" else "";
    if outcome.Done? {
      ctx.PrintString(")");
    } else {
      assert ctx.out + "" == ctx.out;
    }
    ShiftCompose(before, marks, inside, Text(closing));
    assert marks + Shift(inside.marks, |before|) + Shift([], |before + inside.text|)
        == marks + Shift(inside.marks, |before|);
  }

  /** The emitter and its static tables. */
  class KotlinInstanceMethodInvokeEmitter {
    const tables: Tables

    /** The tables are the ones the static initializer fills. */
    predicate Valid()
    {
      tables == Registered
    }

    /** The static initializer: the tables hold the registered entries. */
    constructor ()
      ensures Valid()
    {
      tables := Registered;
    }

    /** The lookup in the rewriter table and the rewriter's attempt, if there is one. */
    method TrySpecial(ctx: EmitterContext, arg: Invoke, expected: TypeSig) returns (handled: bool)
      modifies ctx`out
      ensures ctx.out == old(ctx.out) + Attempt(tables, ctx.renderers, arg, expected).text
      ensures handled == Attempt(tables, ctx.renderers, arg, expected).handled
    {
      var key := arg.owner + arg.methodName;
      if key in tables.special {
        handled := RunSpecial(ctx, tables.special[key], arg, expected);
      } else {
        assert ctx.out + "" == ctx.out;
        handled := false;
      }
    }

    /** The receiver choice of the emitter, for a call that is not a constructor call. */
    method EmitReceiver(ctx: EmitterContext, arg: Invoke)
      modifies ctx`out
      ensures ctx.out == old(ctx.out) + Receiver(tables, ctx.scope, ctx.renderers, arg)
    {
      var key := arg.owner + arg.methodName;
      if key !in tables.noCallee {
        var scope := ctx.scope;
        if arg.callee.LocalAccess? && scope.enclosingMethod.Some? && !scope.enclosingMethod.value.isStatic {
          if arg.callee.index == 0 {
            if scope.enclosingType.Some? && arg.ownerName != scope.enclosingType.value {
              ctx.PrintString("super.");
            } else {
              assert ctx.out + "" == ctx.out;
            }
          } else {
            ctx.Emit(arg.callee, NoType);
            ctx.PrintString(".");
          }
        } else {
          ctx.Emit(arg.callee, OfDescriptor(arg.owner));
          ctx.PrintString(".");
        }
      } else {
        assert ctx.out + "" == ctx.out;
      }
    }

    /** Everything before the argument list, once no rewriter has taken the call. */
    method EmitHead(ctx: EmitterContext, arg: Invoke)
      modifies ctx`out
      ensures ctx.out == old(ctx.out) + Head(tables, ctx.scope, ctx.renderers, arg)
    {
      if arg.methodName == "<init>" {
        if ctx.scope.enclosingType.Some? {
          if arg.ownerName == ctx.scope.enclosingType.value {
            ctx.PrintString("this");
          } else {
            ctx.PrintString("super");
          }
        } else {
          ctx.PrintString("super");
        }
      } else {
        EmitReceiver(ctx, arg);
        ctx.PrintString(arg.methodName);
      }
    }

    /** KotlinInstanceMethodInvokeEmitter.emit: the rewriter table, the call target, then the argument list. */
    method Emit(ctx: EmitterContext, arg: Invoke, expected: TypeSig) returns (outcome: Outcome)
      requires Valid()
      modifies ctx`out, ctx`wrapPoints
      ensures var e := Invocation(tables, ctx.scope, ctx.renderers, arg, expected);
        outcome == e.outcome && ctx.Extends(old(ctx.out), old(ctx.wrapPoints), e.piece)
    {
      ghost var before, marks := ctx.out, ctx.wrapPoints;
      ghost var r, scope := ctx.renderers, ctx.scope;
      ghost var tried := Attempt(tables, r, arg, expected);
      assert marks + Shift([], |before|) == marks;
      var handled := TrySpecial(ctx, arg, expected);
      if handled {
        assert Invocation(tables, scope, r, arg, expected) == Emission(Text(tried.text), Done);
        return Done;
      }
      EmitHead(ctx, arg);
      ghost var head := Text(tried.text + Head(tables, scope, r, arg));
      assert ctx.out == before + head.text;
      if arg.owner + arg.methodName in tables.noParams {
        assert Invocation(tables, scope, r, arg, expected) == Emission(head, Done);
        return Done;
      }
      ghost var args := ArgumentList(r, arg);
      assert Invocation(tables, scope, r, arg, expected) == Emission(head.Then(args.piece), args.outcome);
      outcome := EmitArgumentList(ctx, arg);
      ShiftCompose(before, marks, head, args.piece);
    }
  }
}
