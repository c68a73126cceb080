/**
 * The recursive-descent parser.  It pulls tokens from a lexer, one at a
 * time, and builds the command tree; on any bracket error it returns the
 * empty (ill-formed) program and records positioned errors.
 *
 * The specification functions work on the token stream still to be read:
 * `ts` holds the current token followed by the tokens the lexer has not
 * handed out yet (an empty `ts` means the current token is end of file).
 */
module Parsing {
  import opened Commands
  import opened Lexing

  /** The errors the parser records (the message text is not modelled). */
  datatype ParseError =
    | UnexpectedToken(tok: Token)
    | UnmatchedBracket(open: Token)
    | UnexpectedEof

  datatype Option<T> = None | Some(value: T)

  datatype Outcome<T> = Ok(value: T) | Fail(errors: seq<ParseError>)

  /** A parsed loop body and the tokens after its closing bracket. */
  datatype Body = Body(cmds: seq<Command>, rest: seq<Token>)

  /** The six tokens that stand for a single command. */
  predicate IsCommandKind(k: TokenKind) {
    k == LShift || k == RShift || k == Inc || k == Dec || k == TokenKind.Out || k == TokenKind.In
  }

  /** The command a single-command token stands for, with amount 1. */
  function StmtOf(k: TokenKind): (c: Command)
    requires IsCommandKind(k)
    ensures UnitCommand(c) && !c.Loop?
  {
    match k
    case LShift => Shift(Left, 1)
    case RShift => Shift(Right, 1)
    case Inc => Arithmetic(Add, 1)
    case Dec => Arithmetic(Sub, 1)
    case Out => IO(IoType.Out)
    case In => IO(IoType.In)
  }

  /** A token stream as the lexer hands it out: no end-of-file token before the end. */
  predicate Symbolic(ts: seq<Token>) {
    forall k :: 0 <= k < |ts| ==> ts[k].kind != Eof
  }

  function PrependBody(cs: seq<Command>, r: Outcome<Body>): Outcome<Body> {
    match r
    case Ok(Body(b, rest)) => Ok(Body(cs + b, rest))
    case Fail(e) => Fail(e)
  }

  function PrependProgram(cs: seq<Command>, r: Outcome<Program>): Outcome<Program> {
    match r
    case Ok(p) => Ok(cs + p)
    case Fail(e) => Fail(e)
  }

  lemma PrependNothing(r: Outcome<Body>, q: Outcome<Program>)
    ensures PrependBody([], r) == r && PrependProgram([], q) == q
  {
    if r.Ok? {
      assert [] + r.value.cmds == r.value.cmds;
    }
    if q.Ok? {
      assert [] + q.value == q.value;
    }
  }

  lemma PrependAssoc(a: seq<Command>, b: seq<Command>, r: Outcome<Body>, q: Outcome<Program>)
    ensures PrependBody(a, PrependBody(b, r)) == PrependBody(a + b, r)
    ensures PrependProgram(a, PrependProgram(b, q)) == PrependProgram(a + b, q)
  {
    if r.Ok? {
      assert a + (b + r.value.cmds) == (a + b) + r.value.cmds;
    }
    if q.Ok? {
      assert a + (b + q.value) == (a + b) + q.value;
    }
  }

  /**
   * The body of a loop opened by token `open`: commands up to the matching
   * `]`, then the tokens after it.  End of input inside the loop fails with
   * two errors, naming the innermost open bracket.
   */
  function ParseBody(ts: seq<Token>, open: Token): (r: Outcome<Body>)
    ensures r.Ok? ==> |r.value.rest| < |ts|

    decreases |ts|
  {
    if ts == [] || ts[0].kind == Eof then Fail([UnmatchedBracket(open), UnexpectedEof])
    else if ts[0].kind == RBracket then Ok(Body([], ts[1..]))
    else if ts[0].kind == LBracket then
      match ParseBody(ts[1..], ts[0])
      case Fail(e) => Fail(e)
      case Ok(Body(inner, rest)) => PrependBody([Loop(inner)], ParseBody(rest, open))
    else PrependBody([StmtOf(ts[0].kind)], ParseBody(ts[1..], open))
  }

  /** The top level: commands until end of input; a stray `]` fails with one error. */
  function ParseTop(ts: seq<Token>): (r: Outcome<Program>)
    ensures r.Ok? ==> |r.value| <= |ts|
    decreases |ts|
  {
    if ts == [] || ts[0].kind == Eof then Ok([])
    else if ts[0].kind == RBracket then Fail([UnexpectedToken(ts[0])])
    else if ts[0].kind == LBracket then
      match ParseBody(ts[1..], ts[0])
      case Fail(e) => Fail(e)
      case Ok(Body(inner, rest)) => PrependProgram([Loop(inner)], ParseTop(rest))
    else PrependProgram([StmtOf(ts[0].kind)], ParseTop(ts[1..]))
  }

  /** The program `parse` returns: empty after any error. */
  function ResultProgram(r: Outcome<Program>): Program {
    if r.Ok? then r.value else []
  }

  function ResultErrors(r: Outcome<Program>): seq<ParseError> {
    if r.Ok? then [] else r.errors
  }

  class Parser {
    const lexer: Lexer
    var cTok: Token
    var errors: seq<ParseError>

    ghost predicate Valid()
      reads this, lexer
    {
      lexer.Valid()
    }

    /** The current token followed by what the lexer has still to hand out. */
    ghost function Input(): seq<Token>
      reads this, lexer
      requires Valid()
    {
      if cTok.kind == Eof then [] else [cTok] + lexer.Remaining()
    }

    constructor (l: Lexer)
      requires l.Valid()
      ensures Valid() && lexer == l && errors == [] && cTok.kind == Eof
      ensures lexer.Remaining() == old(l.Remaining())
    {
      lexer := l;
      cTok := Token(StartPosition, Eof);
      errors := [];
    }

    /** Fetches the next token from the lexer. */
    method NextToken()
      requires Valid()
      modifies this`cTok, lexer`next, lexer`eofBit, lexer`current, lexer`pos
      ensures Valid() && errors == old(errors)
      ensures Input() == old(lexer.Remaining())
    {
      cTok := lexer.NextToken();
    }

    /** Consumes the current token when it is `k`; a mismatch changes nothing and records nothing. */
    method Expect(k: TokenKind) returns (ok: bool)
      requires Valid()
      modifies this`cTok, lexer`next, lexer`eofBit, lexer`current, lexer`pos
      ensures Valid() && errors == old(errors)
      ensures ok == (old(cTok.kind) == k)
      ensures ok ==> Input() == old(lexer.Remaining())
      ensures !ok ==> cTok == old(cTok) && unchanged(lexer)
    {
      if cTok.kind != k {
        // the C++ code builds an "unexpected token" message here and drops it
        return false;
      }
      NextToken();
      return true;
    }

    /**
     * One single-character command with amount 1; on any other token it
     * records an error and returns nothing, without consuming the token.
     */
    method ParseStmt() returns (stmt: Option<Command>)
      requires Valid()
      modifies this`cTok, this`errors, lexer`next, lexer`eofBit, lexer`current, lexer`pos
      ensures Valid()
      ensures IsCommandKind(old(cTok.kind)) ==>
        stmt == Some(StmtOf(old(cTok.kind))) && errors == old(errors) && Input() == old(lexer.Remaining())
      ensures !IsCommandKind(old(cTok.kind)) ==>
        stmt == None && errors == old(errors) + [UnexpectedToken(old(cTok))] && cTok == old(cTok) && unchanged(lexer)
    {
      if !IsCommandKind(cTok.kind) {
        errors := errors + [UnexpectedToken(cTok)];
        return None;
      }
      stmt := Some(StmtOf(cTok.kind));
      NextToken();
    }

    /**
     * A loop: `[`, then commands and nested loops up to the matching `]`.
     * A failure anywhere inside returns nothing, and only the innermost
     * unclosed loop records its errors.
     */
    method ParseLoop() returns (loop: Option<Command>)
      requires Valid()
      modifies this`cTok, this`errors, lexer`next, lexer`eofBit, lexer`current, lexer`pos
      ensures Valid()
      ensures old(cTok.kind) != LBracket ==> loop == None && errors == old(errors) && cTok == old(cTok) && unchanged(lexer)
      ensures old(cTok.kind) == LBracket ==>
        match ParseBody(old(lexer.Remaining()), old(cTok))
        case Ok(Body(b, rest)) => loop == Some(Loop(b)) && errors == old(errors) && Input() == rest
        case Fail(e) => loop == None && errors == old(errors) + e && Input() == []
      decreases |Input()|, 0
    {
      var c := cTok;
      ghost var ts := lexer.Remaining();
      var ok := Expect(LBracket);
      if !ok {
        return None;
      }
      var commands: seq<Command> := [];
      PrependNothing(ParseBody(ts, c), Ok([]));
      while cTok.kind != RBracket
        invariant Valid()
        invariant |Input()| <= |ts| < |old(Input())|
        invariant errors == old(errors)
        invariant ParseBody(ts, c) == PrependBody(commands, ParseBody(Input(), c))
        decreases |Input()|
      {
        var stop;
        commands, stop := ParseBodyStatement(ts, c, commands);
        if stop {
          return None;
        }
      }
      // the loop above stops only on `]`, so this always consumes it
      assert ParseBody(ts, c) == Ok(Body(commands, lexer.Remaining())) by {
        assert commands + [] == commands;
      }
      ok := Expect(RBracket);
      loop := Some(Loop(commands));
    }

    /**
     * One statement of a loop body: a command, a nested loop, or the end of
     * file that leaves the loop unclosed.  `stop` reports that the loop has
     * failed, with its errors recorded and the input used up.
     */
    method ParseBodyStatement(ghost ts: seq<Token>, c: Token, commands: seq<Command>)
      returns (commands': seq<Command>, stop: bool)
      requires Valid() && cTok.kind != RBracket
      requires ParseBody(ts, c) == PrependBody(commands, ParseBody(Input(), c))
      modifies this`cTok, this`errors, lexer`next, lexer`eofBit, lexer`current, lexer`pos
      ensures Valid()
      ensures !stop ==> |Input()| < old(|Input()|) && errors == old(errors)
      ensures !stop ==> ParseBody(ts, c) == PrependBody(commands', ParseBody(Input(), c))
      ensures stop ==> ParseBody(ts, c).Fail? && errors == old(errors) + ParseBody(ts, c).errors && Input() == []
      decreases |Input()|, 1
    {
      ghost var input := Input();
      stop := false;
      if IsCommandKind(cTok.kind) {
        var stmt := ParseStmt();
        PrependAssoc(commands, [stmt.value], ParseBody(Input(), c), Ok([]));
        commands' := commands + [stmt.value];
      } else if cTok.kind == LBracket {
        ghost var nested := ParseBody(input[1..], input[0]);
        assert ParseBody(input, c) == if nested.Fail? then Fail(nested.errors)
          else PrependBody([Loop(nested.value.cmds)], ParseBody(nested.value.rest, c));
        var inner := ParseLoop();
        if inner.Some? {
          PrependAssoc(commands, [inner.value], ParseBody(Input(), c), Ok([]));
          commands' := commands + [inner.value];
        } else {
          commands' := commands;
          stop := true;
        }
      } else {
        // end of file inside the loop
        errors := errors + [UnmatchedBracket(c), UnexpectedEof];
        commands' := commands;
        stop := true;
      }
    }

    /**
     * The whole program, read up to end of file.  A stray `]` or a failed
     * loop clears the program and stops parsing.
     */
    method Parse() returns (p: Program)
      requires Valid()
      modifies this`cTok, this`errors, lexer`next, lexer`eofBit, lexer`current, lexer`pos
      ensures Valid()
      ensures p == ResultProgram(ParseTop(old(lexer.Remaining())))
      ensures errors == old(errors) + ResultErrors(ParseTop(old(lexer.Remaining())))
      ensures cTok.kind == Eof
    {
      p := [];
      ghost var ts := lexer.Remaining();
      NextToken();
      ghost var failed := false;
      PrependNothing(Ok(Body([], [])), ParseTop(ts));
      while cTok.kind != Eof
        invariant Valid()
        invariant !failed ==> errors == old(errors) && ParseTop(ts) == PrependProgram(p, ParseTop(Input()))
        invariant failed ==> cTok.kind == Eof && p == [] && ParseTop(ts).Fail? && errors == old(errors) + ParseTop(ts).errors
        decreases |Input()|
      {
        p, failed := ParseTopStatement(ts, p);
      }
    }

    /**
     * One turn of the `parse` loop on a token other than eof: a command or
     * a loop is appended to `p`; a stray `]` or a failed loop clears `p`
     * and moves the current token to eof.
     */
    method ParseTopStatement(ghost ts: seq<Token>, p: Program) returns (p': Program, ghost failed: bool)
      requires Valid() && cTok.kind != Eof
      requires ParseTop(ts) == PrependProgram(p, ParseTop(Input()))
      modifies this`cTok, this`errors, lexer`next, lexer`eofBit, lexer`current, lexer`pos
      ensures Valid() && |Input()| < old(|Input()|)
      ensures !failed ==> errors == old(errors) && ParseTop(ts) == PrependProgram(p', ParseTop(Input()))
      ensures failed ==> cTok.kind == Eof && p' == [] && ParseTop(ts).Fail? && errors == old(errors) + ParseTop(ts).errors
    {
      ghost var input := Input();
      failed := false;
      if IsCommandKind(cTok.kind) {
        var stmt := ParseStmt();
        PrependAssoc(p, [stmt.value], Ok(Body([], [])), ParseTop(Input()));
        p' := p + [stmt.value];
      } else if cTok.kind == LBracket {
        ghost var nested := ParseBody(lexer.Remaining(), cTok);
        assert ParseTop(input) == if nested.Fail? then Fail(nested.errors)
          else PrependProgram([Loop(nested.value.cmds)], ParseTop(nested.value.rest));
        var loop := ParseLoop();
        if loop.Some? {
          PrependAssoc(p, [loop.value], Ok(Body([], [])), ParseTop(Input()));
          p' := p + [loop.value];
        } else {
          p' := [];
          cTok := cTok.(kind := Eof);
          failed := true;
        }
      } else {
        assert ParseTop(input) == Fail([UnexpectedToken(cTok)]);
        errors := errors + [UnexpectedToken(cTok)];
        p' := [];
        cTok := cTok.(kind := Eof);
        failed := true;
      }
    }
  }

  /*
   * Properties of the parse.  `Unparse` prints a command tree back as the
   * token kinds it stands for, and `Balanced` checks brackets with a depth
   * counter; the lemmas below tie both to `ParseTop`.
   */

  function Kinds(ts: seq<Token>): (ks: seq<TokenKind>)
    ensures |ks| == |ts|
  {
    if ts == [] then [] else [ts[0].kind] + Kinds(ts[1..])
  }

  function Repeat(k: TokenKind, n: nat): (ks: seq<TokenKind>)
    ensures |ks| == n && forall i :: 0 <= i < n ==> ks[i] == k
  {
    if n == 0 then [] else [k] + Repeat(k, n - 1)
  }

  function UnparseCommand(c: Command): seq<TokenKind>
    decreases c
  {
    match c
    case Arithmetic(Add, n) => Repeat(Inc, n)
    case Arithmetic(Sub, n) => Repeat(Dec, n)
    case Shift(Left, n) => Repeat(LShift, n)
    case Shift(Right, n) => Repeat(RShift, n)
    case IO(In) => [TokenKind.In]
    case IO(Out) => [TokenKind.Out]
    case Loop(b) => [LBracket] + Unparse(b) + [RBracket]
  }

  function Unparse(p: seq<Command>): seq<TokenKind>
    decreases p
  {
    if p == [] then [] else UnparseCommand(p[0]) + Unparse(p[1..])
  }

  /** Bracket balance by a depth counter: never below zero, zero at the end. */
  function BalancedFrom(ks: seq<TokenKind>, depth: nat): bool
    decreases |ks|
  {
    if ks == [] then depth == 0
    else if ks[0] == LBracket then BalancedFrom(ks[1..], depth + 1)
    else if ks[0] == RBracket then depth > 0 && BalancedFrom(ks[1..], depth - 1)
    else BalancedFrom(ks[1..], depth)
  }

  predicate Balanced(ks: seq<TokenKind>) {
    BalancedFrom(ks, 0)
  }

  /** A successfully parsed loop body is exactly its commands' tokens followed by `]`. */
  lemma {:induction false} ParseBodyUnparse(ts: seq<Token>, open: Token)
    requires ParseBody(ts, open).Ok?
    ensures Kinds(ts) == Unparse(ParseBody(ts, open).value.cmds) + [RBracket] + Kinds(ParseBody(ts, open).value.rest)
    decreases |ts|, 1
  {
    if ts[0].kind == RBracket {
      assert Kinds(ts) == [ts[0].kind] + Kinds(ts[1..]);
    } else if ts[0].kind == LBracket {
      ParseBodyUnparseLoop(ts, open);
    } else {
      ParseBodyUnparseStmt(ts, open);
    }
  }

  lemma {:induction false} ParseBodyUnparseLoop(ts: seq<Token>, open: Token)
    requires ts != [] && ts[0].kind == LBracket && ParseBody(ts, open).Ok?
    ensures Kinds(ts) == Unparse(ParseBody(ts, open).value.cmds) + [RBracket] + Kinds(ParseBody(ts, open).value.rest)
    decreases |ts|, 0
  {
    var inner := ParseBody(ts[1..], ts[0]).value;
    var more := ParseBody(inner.rest, open).value;
    assert ParseBody(ts, open) == Ok(Body([Loop(inner.cmds)] + more.cmds, more.rest));
    assert Kinds(ts[1..]) == Unparse(inner.cmds) + [RBracket] + Kinds(inner.rest) by {
      ParseBodyUnparse(ts[1..], ts[0]);
    }
    assert Kinds(inner.rest) == Unparse(more.cmds) + [RBracket] + Kinds(more.rest) by {
      ParseBodyUnparse(inner.rest, open);
    }
    assert Unparse([Loop(inner.cmds)] + more.cmds) == [LBracket] + Unparse(inner.cmds) + [RBracket] + Unparse(more.cmds) by {
      ConsUnparse(Loop(inner.cmds), more.cmds);
    }
    Chain(Kinds(ts), Kinds(ts[1..]), Kinds(inner.rest), Kinds(more.rest),
      Unparse(inner.cmds), Unparse(more.cmds), Unparse([Loop(inner.cmds)] + more.cmds));
  }

  lemma Chain(k: seq<TokenKind>, k1: seq<TokenKind>, k2: seq<TokenKind>, kr: seq<TokenKind>,
              ui: seq<TokenKind>, um: seq<TokenKind>, u: seq<TokenKind>)
    requires k == [LBracket] + k1 && k1 == ui + [RBracket] + k2 && k2 == um + [RBracket] + kr
    requires u == [LBracket] + ui + [RBracket] + um
    ensures k == u + [RBracket] + kr
  {
  }

  lemma {:induction false} ParseBodyUnparseStmt(ts: seq<Token>, open: Token)
    requires ts != [] && IsCommandKind(ts[0].kind) && ParseBody(ts, open).Ok?
    ensures Kinds(ts) == Unparse(ParseBody(ts, open).value.cmds) + [RBracket] + Kinds(ParseBody(ts, open).value.rest)
    decreases |ts|, 0
  {
    var more := ParseBody(ts[1..], open).value;
    var c := StmtOf(ts[0].kind);
    assert ParseBody(ts, open) == Ok(Body([c] + more.cmds, more.rest));
    assert Kinds(ts[1..]) == Unparse(more.cmds) + [RBracket] + Kinds(more.rest) by {
      ParseBodyUnparse(ts[1..], open);
    }
    assert Unparse([c] + more.cmds) == [ts[0].kind] + Unparse(more.cmds) by {
      ConsUnparse(c, more.cmds);
      UnitUnparse(c);
    }
    Regroup([ts[0].kind], Unparse(more.cmds), [RBracket], Kinds(more.rest));
  }

  /** Every command the parser builds has amount 1. */
  lemma {:induction false} ParseBodyUnit(ts: seq<Token>, open: Token)
    requires ParseBody(ts, open).Ok?
    ensures UnitAmounts(ParseBody(ts, open).value.cmds)
    decreases |ts|
  {
    if ts[0].kind == LBracket {
      var inner := ParseBody(ts[1..], ts[0]).value;
      ParseBodyUnit(ts[1..], ts[0]);
      ParseBodyUnit(inner.rest, open);
      ConsUnparse(Loop(inner.cmds), ParseBody(inner.rest, open).value.cmds);
    } else if ts[0].kind != RBracket {
      ParseBodyUnit(ts[1..], open);
      ConsUnparse(StmtOf(ts[0].kind), ParseBody(ts[1..], open).value.cmds);
    }
  }

  lemma ConsUnparse(c: Command, p: seq<Command>)
    ensures Unparse([c] + p) == UnparseCommand(c) + Unparse(p)
    ensures UnitCommand(c) && UnitAmounts(p) ==> UnitAmounts([c] + p)
  {
    assert ([c] + p)[1..] == p;
  }

  lemma Regroup(a: seq<TokenKind>, x: seq<TokenKind>, y: seq<TokenKind>, r: seq<TokenKind>)
    ensures a + (x + y + r) == (a + x + y) + r
  {
  }

  /** What remains after a parsed loop body is a suffix of the stream. */
  lemma {:induction false} SuffixOf(ts: seq<Token>, open: Token)
    requires ParseBody(ts, open).Ok?
    ensures ParseBody(ts, open).value.rest == ts[|ts| - |ParseBody(ts, open).value.rest|..]
    decreases |ts|
  {
    if ts[0].kind == LBracket {
      var inner := ParseBody(ts[1..], ts[0]).value;
      SuffixOf(ts[1..], ts[0]);
      SuffixOf(inner.rest, open);
    } else if ts[0].kind != RBracket {
      SuffixOf(ts[1..], open);
    }
  }

  /** A successful parse prints back to exactly the token stream it read, with all amounts 1. */
  lemma {:induction false} ParseTopUnparse(ts: seq<Token>)
    requires Symbolic(ts) && ParseTop(ts).Ok?
    ensures Kinds(ts) == Unparse(ParseTop(ts).value)
    ensures UnitAmounts(ParseTop(ts).value)
    decreases |ts|, 1
  {
    ParseTopUnit(ts);
    if ts != [] && ts[0].kind == LBracket {
      ParseTopUnparseLoop(ts);
    } else if ts != [] {
      ParseTopUnparseStmt(ts);
    }
  }

  lemma {:induction false} ParseTopUnparseLoop(ts: seq<Token>)
    requires Symbolic(ts) && ts != [] && ts[0].kind == LBracket && ParseTop(ts).Ok?
    ensures Kinds(ts) == Unparse(ParseTop(ts).value)
    decreases |ts|, 0
  {
    var inner := ParseBody(ts[1..], ts[0]).value;
    var more := ParseTop(inner.rest).value;
    assert ParseTop(ts) == Ok([Loop(inner.cmds)] + more);
    assert Kinds(ts[1..]) == Unparse(inner.cmds) + [RBracket] + Kinds(inner.rest) by {
      ParseBodyUnparse(ts[1..], ts[0]);
    }
    assert Kinds(inner.rest) == Unparse(more) by {
      assert Symbolic(inner.rest) by {
        SuffixOf(ts[1..], ts[0]);
        assert inner.rest == ts[|ts| - |inner.rest|..];
      }
      ParseTopUnparse(inner.rest);
    }
    assert Unparse([Loop(inner.cmds)] + more) == [LBracket] + Unparse(inner.cmds) + [RBracket] + Unparse(more) by {
      ConsUnparse(Loop(inner.cmds), more);
    }
    Regroup([LBracket], Unparse(inner.cmds), [RBracket], Unparse(more));
  }

  lemma {:induction false} ParseTopUnparseStmt(ts: seq<Token>)
    requires Symbolic(ts) && ts != [] && ts[0].kind != LBracket && ParseTop(ts).Ok?
    ensures Kinds(ts) == Unparse(ParseTop(ts).value)
    decreases |ts|, 0
  {
    var more := ParseTop(ts[1..]).value;
    var c := StmtOf(ts[0].kind);
    assert ParseTop(ts) == Ok([c] + more);
    assert Kinds(ts[1..]) == Unparse(more) by {
      ParseTopUnparse(ts[1..]);
    }
    assert Unparse([c] + more) == [ts[0].kind] + Unparse(more) by {
      ConsUnparse(c, more);
      UnitUnparse(c);
    }
  }

  /** Every command of a parsed program has amount 1. */
  lemma {:induction false} ParseTopUnit(ts: seq<Token>)
    requires ParseTop(ts).Ok?
    ensures UnitAmounts(ParseTop(ts).value)
    decreases |ts|
  {
    if ts != [] && ts[0].kind == LBracket {
      var inner := ParseBody(ts[1..], ts[0]).value;
      ParseBodyUnit(ts[1..], ts[0]);
      ParseTopUnit(inner.rest);
      ConsUnparse(Loop(inner.cmds), ParseTop(inner.rest).value);
    } else if ts != [] && ts[0].kind != Eof {
      ParseTopUnit(ts[1..]);
      ConsUnparse(StmtOf(ts[0].kind), ParseTop(ts[1..]).value);
    }
  }

  lemma UnitUnparse(c: Command)
    requires UnitCommand(c) && !c.Loop?
    ensures |UnparseCommand(c)| == 1 && IsCommandKind(UnparseCommand(c)[0])
    ensures StmtOf(UnparseCommand(c)[0]) == c
  {
  }

  /**
   * Inside a loop opened at depth `d + 1`, the rest of the stream balances
   * exactly when the body parses and what follows it balances at depth `d`.
   */
  lemma {:induction false} ParseBodyBalanced(ts: seq<Token>, open: Token, d: nat)
    requires Symbolic(ts)
    ensures BalancedFrom(Kinds(ts), d + 1) <==>
      ParseBody(ts, open).Ok? && BalancedFrom(Kinds(ParseBody(ts, open).value.rest), d)
    decreases |ts|, 1
  {
    if ts != [] && ts[0].kind == LBracket {
      ParseBodyBalancedLoop(ts, open, d);
    } else if ts != [] {
      assert Kinds(ts) == [ts[0].kind] + Kinds(ts[1..]);
      if ts[0].kind != RBracket {
        ParseBodyBalanced(ts[1..], open, d);
      }
    }
  }

  lemma {:induction false} ParseBodyBalancedLoop(ts: seq<Token>, open: Token, d: nat)
    requires Symbolic(ts) && ts != [] && ts[0].kind == LBracket
    ensures BalancedFrom(Kinds(ts), d + 1) <==>
      ParseBody(ts, open).Ok? && BalancedFrom(Kinds(ParseBody(ts, open).value.rest), d)
    decreases |ts|, 0
  {
    var r := ParseBody(ts[1..], ts[0]);
    assert BalancedFrom(Kinds(ts), d + 1) == BalancedFrom(Kinds(ts[1..]), d + 2) by {
      assert Kinds(ts) == [LBracket] + Kinds(ts[1..]);
    }
    assert BalancedFrom(Kinds(ts[1..]), d + 2) <==> r.Ok? && BalancedFrom(Kinds(r.value.rest), d + 1) by {
      ParseBodyBalanced(ts[1..], ts[0], d + 1);
    }
    if r.Ok? {
      assert Symbolic(r.value.rest) by {
        SuffixOf(ts[1..], ts[0]);
      }
      ParseBodyBalanced(r.value.rest, open, d);
      assert ParseBody(ts, open) == PrependBody([Loop(r.value.cmds)], ParseBody(r.value.rest, open));
    }
  }

  /** A token stream parses without error exactly when its brackets balance. */
  lemma {:induction false} ParseTopBalanced(ts: seq<Token>)
    requires Symbolic(ts)
    ensures ParseTop(ts).Ok? <==> Balanced(Kinds(ts))
    decreases |ts|, 1
  {
    if ts != [] && ts[0].kind == LBracket {
      ParseTopBalancedLoop(ts);
    } else if ts != [] {
      assert Kinds(ts) == [ts[0].kind] + Kinds(ts[1..]);
      if ts[0].kind != RBracket {
        ParseTopBalanced(ts[1..]);
      }
    }
  }

  lemma {:induction false} ParseTopBalancedLoop(ts: seq<Token>)
    requires Symbolic(ts) && ts != [] && ts[0].kind == LBracket
    ensures ParseTop(ts).Ok? <==> Balanced(Kinds(ts))
    decreases |ts|, 0
  {
    var r := ParseBody(ts[1..], ts[0]);
    assert Balanced(Kinds(ts)) == BalancedFrom(Kinds(ts[1..]), 1) by {
      assert Kinds(ts) == [LBracket] + Kinds(ts[1..]);
    }
    assert BalancedFrom(Kinds(ts[1..]), 1) <==> r.Ok? && Balanced(Kinds(r.value.rest)) by {
      ParseBodyBalanced(ts[1..], ts[0], 0);
    }
    if r.Ok? {
      assert Symbolic(r.value.rest) by {
        SuffixOf(ts[1..], ts[0]);
      }
      ParseTopBalanced(r.value.rest);
      assert ParseTop(ts) == PrependProgram([Loop(r.value.cmds)], ParseTop(r.value.rest));
    }
  }

  /**
   * The parser returns a non-empty program exactly when the token stream is
   * non-empty and all its brackets are matched; the program is then the
   * stream read back command by command.
   */
  lemma ParseResult(ts: seq<Token>)
    requires Symbolic(ts)
    ensures !IllFormed(ResultProgram(ParseTop(ts))) <==> ts != [] && Balanced(Kinds(ts))
    ensures !IllFormed(ResultProgram(ParseTop(ts))) ==> Kinds(ts) == Unparse(ResultProgram(ParseTop(ts)))
  {
    ParseTopBalanced(ts);
    if ParseTop(ts).Ok? {
      ParseTopUnparse(ts);
    }
  }
  /** A loop that fails names one unclosed `[` (its own or one nested in it) and then end of input. */
  lemma {:induction false} ParseBodyErrors(ts: seq<Token>, open: Token)
    requires ParseBody(ts, open).Fail?
    ensures var e := ParseBody(ts, open).errors;
      && |e| == 2 && e[0].UnmatchedBracket? && e[1] == UnexpectedEof
      && (e[0].open == open || (e[0].open in ts && e[0].open.kind == LBracket))
    decreases |ts|
  {
    if ts != [] && ts[0].kind == LBracket {
      var r := ParseBody(ts[1..], ts[0]);
      if r.Fail? {
        ParseBodyErrors(ts[1..], ts[0]);
      } else {
        ParseBodyErrors(r.value.rest, open);
        SuffixOf(ts[1..], ts[0]);
      }
    } else if ts != [] && ts[0].kind != Eof && ts[0].kind != RBracket {
      ParseBodyErrors(ts[1..], open);
    }
  }

  /**
   * A failed parse records exactly one error, a stray `]` of the stream, or
   * exactly two, an unclosed `[` of the stream followed by end of input.
   */
  lemma {:induction false} ParseTopErrors(ts: seq<Token>)
    requires ParseTop(ts).Fail?
    ensures var e := ParseTop(ts).errors;
      || (|e| == 1 && e[0].UnexpectedToken? && e[0].tok in ts && e[0].tok.kind == RBracket)
      || (|e| == 2 && e[0].UnmatchedBracket? && e[0].open in ts && e[0].open.kind == LBracket && e[1] == UnexpectedEof)
    decreases |ts|
  {
    if ts[0].kind == LBracket {
      var r := ParseBody(ts[1..], ts[0]);
      if r.Fail? {
        ParseBodyErrors(ts[1..], ts[0]);
      } else {
        ParseTopErrors(r.value.rest);
        SuffixOf(ts[1..], ts[0]);
      }
    } else if ts[0].kind != RBracket {
      ParseTopErrors(ts[1..]);
    }
  }
}
