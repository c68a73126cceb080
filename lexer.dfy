/**
 * The lexer: it filters a character stream down to the eight symbol tokens
 * and records the line/column position of each.  The input file is a
 * character sequence read through a cursor, one `get` at a time, with the
 * stream's end-of-file flag modelled as a field.
 */
module Lexing {

  /** A line/column pair; a fresh position is line 1, column 0. */
  datatype Position = Position(line: nat, col: nat)

  const StartPosition: Position := Position(1, 0)

  datatype TokenKind = LShift | RShift | Inc | Dec | Out | In | LBracket | RBracket | Eof

  datatype Token = Token(pos: Position, kind: TokenKind)

  /** What the stream hands back once it is exhausted: the character cast of EOF (-1). */
  const EofChar: char := 0xFF as char

  /** The eight characters that are tokens. */
  predicate IsSymbol(c: char) {
    c == '<' || c == '>' || c == '+' || c == '-' || c == '.' || c == ',' || c == '[' || c == ']'
  }

  /** A token kind is the character it stands for. */
  function KindOf(c: char): (k: TokenKind)
    requires IsSymbol(c)
    ensures k != Eof && CharOf(k) == c
  {
    match c
    case '<' => LShift
    case '>' => RShift
    case '+' => Inc
    case '-' => Dec
    case '.' => Out
    case ',' => In
    case '[' => LBracket
    case ']' => RBracket
  }

  function CharOf(k: TokenKind): char
    requires k != Eof
  {
    match k
    case LShift => '<'
    case RShift => '>'
    case Inc => '+'
    case Dec => '-'
    case Out => '.'
    case In => ','
    case LBracket => '['
    case RBracket => ']'
  }

  /** The position after consuming character `c`: a newline starts the next line at column 1. */
  function Advance(p: Position, c: char): (r: Position)
    ensures r.col >= 1 && r.line >= p.line
    ensures c == '\n' <==> r.line == p.line + 1
    ensures c == '\n' ==> r.col == 1
    ensures c != '\n' ==> r == Position(p.line, p.col + 1)
  {
    if c == '\n' then Position(p.line + 1, 1) else Position(p.line, p.col + 1)
  }

  /** The position of the character at index `i` of `s` (index |s| is the end of the file). */
  function PosOf(s: seq<char>, i: nat): (r: Position)
    requires i <= |s|
    ensures r.line >= 1 && r.col >= 1
    ensures i == 0 ==> r == Position(1, 1)
    decreases i
  {
    if i == 0 then Advance(StartPosition, '\0') else Advance(PosOf(s, i - 1), s[i - 1])
  }

  /** The tokens of the symbols at index `i` and after, in input order. */
  function LexFrom(s: seq<char>, i: nat): (r: seq<Token>)
    requires i <= |s|
    ensures |r| <= |s| - i
    ensures forall k :: 0 <= k < |r| ==> r[k].kind != Eof
    decreases |s| - i
  {
    if i == |s| then []
    else if IsSymbol(s[i]) then [Token(PosOf(s, i), KindOf(s[i]))] + LexFrom(s, i + 1)
    else LexFrom(s, i + 1)
  }

  /** The whole token stream of a file, without its final end-of-file token. */
  function Lex(s: seq<char>): (r: seq<Token>)
    ensures |r| <= |s|
    ensures forall k :: 0 <= k < |r| ==> r[k].kind != Eof
  {
    LexFrom(s, 0)
  }

  /** The symbol characters of `s`, in order. */
  function Symbols(s: seq<char>): seq<char> {
    if s == [] then [] else (if IsSymbol(s[0]) then [s[0]] else []) + Symbols(s[1..])
  }

  function TokenChars(ts: seq<Token>): seq<char>
    requires forall k :: 0 <= k < |ts| ==> ts[k].kind != Eof
  {
    if ts == [] then [] else [CharOf(ts[0].kind)] + TokenChars(ts[1..])
  }

  /**
   * Only the eight symbols produce tokens, each one exactly one token whose
   * kind is the character itself, in input order: every other character is
   * skipped.
   */
  lemma {:induction false} LexFromSymbols(s: seq<char>, i: nat)
    requires i <= |s|
    ensures TokenChars(LexFrom(s, i)) == Symbols(s[i..])
    decreases |s| - i
  {
    if i < |s| {
      LexFromSymbols(s, i + 1);
      assert s[i..][1..] == s[i + 1..];
    }
  }

  lemma LexSymbols(s: seq<char>)
    ensures TokenChars(Lex(s)) == Symbols(s)
  {
    LexFromSymbols(s, 0);
    assert s[0..] == s;
  }

  /**
   * The `k`-th token of `LexFrom(s, i)` sits at the position of the
   * symbol character at index `j`, the one with exactly `k` symbols
   * between index `i` and it.
   */
  lemma {:induction false} LexFromPositions(s: seq<char>, i: nat, k: nat)
    requires i <= |s| && k < |LexFrom(s, i)|
    ensures exists j ::
      && i <= j < |s| && IsSymbol(s[j]) && |Symbols(s[i..j])| == k
      && LexFrom(s, i)[k] == Token(PosOf(s, j), KindOf(s[j]))
    decreases |s| - i
  {
    if IsSymbol(s[i]) && k == 0 {
      assert s[i..i] == [];
      assert IsSymbol(s[i]) && |Symbols(s[i..i])| == k && LexFrom(s, i)[k] == Token(PosOf(s, i), KindOf(s[i]));
    } else {
      var k' := if IsSymbol(s[i]) then k - 1 else k;
      LexFromPositions(s, i + 1, k');
      var j :| i + 1 <= j < |s| && IsSymbol(s[j]) && |Symbols(s[i + 1..j])| == k'
        && LexFrom(s, i + 1)[k'] == Token(PosOf(s, j), KindOf(s[j]));
      assert s[i..j][0] == s[i] && s[i..j][1..] == s[i + 1..j];
      assert |Symbols(s[i..j])| == k;
    }
  }

  /** Characters that are not symbols contribute nothing to the token stream. */
  lemma {:induction false} SkipNonSymbols(s: seq<char>, i: nat, j: nat)
    requires i <= j <= |s|
    requires forall k :: i <= k < j ==> !IsSymbol(s[k])
    ensures LexFrom(s, i) == LexFrom(s, j)
    decreases j - i
  {
    if i < j {
      SkipNonSymbols(s, i + 1, j);
    }
  }

  function CountNewlines(s: seq<char>): nat {
    if s == [] then 0 else CountNewlines(s[..|s| - 1]) + (if s[|s| - 1] == '\n' then 1 else 0)
  }

  /**
   * The line of a character is one more than the number of newlines before
   * it, and its column is at least 1: the first character of the file is at
   * line 1, column 1, and the character after a newline is at column 1.
   */
  lemma {:induction false} PosOfLine(s: seq<char>, i: nat)
    requires i <= |s|
    ensures PosOf(s, i).line == 1 + CountNewlines(s[..i])
    ensures PosOf(s, i).col >= 1
    ensures 0 < i && s[i - 1] == '\n' ==> PosOf(s, i).col == 1
    ensures 0 < i && s[i - 1] != '\n' ==> PosOf(s, i).col == PosOf(s, i - 1).col + 1
    decreases i
  {
    if i > 0 {
      PosOfLine(s, i - 1);
      assert s[..i][..i - 1] == s[..i - 1];
    }
  }

  /**
   * The lexer object.  `next` counts the characters `get` has delivered,
   * `eofBit` is the stream's end-of-file flag (set by the first `get` that
   * finds nothing), `current` the character under the cursor and `pos` its
   * position.
   */
  class Lexer {
    const file: seq<char>
    var next: nat
    var eofBit: bool
    var current: char
    var pos: Position

    /**
     * Between calls the cursor sits on a character that is not a newline,
     * with its position, or the file is exhausted and the position is the
     * end-of-file position.
     */
    ghost predicate Valid()
      reads this
    {
      && next <= |file|
      && (eofBit ==> next == |file| && pos == PosOf(file, |file|))
      && (!eofBit ==> 1 <= next && current == file[next - 1] && current != '\n' && pos == PosOf(file, next - 1))
    }

    /** Index of the character under the cursor (|file| once exhausted). */
    ghost function Cursor(): nat
      reads this
      requires Valid()
    {
      if eofBit then |file| else next - 1
    }

    /** The tokens this lexer has still to hand out. */
    ghost function Remaining(): seq<Token>
      reads this
      requires Valid()
    {
      LexFrom(file, Cursor())
    }

    /** Opens the file and reads its first character, as the C++ constructor does. */
    constructor (input: seq<char>)
      ensures Valid()
      ensures file == input && Remaining() == Lex(input)
    {
      file := input;
      next := 0;
      eofBit := false;
      current := '\0';
      pos := StartPosition;
      new;
      NextC();
      SkipNonSymbols(file, 0, Cursor());
    }

    /** The stream's `get`: the next character, or EOF and the end-of-file flag. */
    method Get() returns (c: char)
      requires next <= |file|
      modifies this`next, this`eofBit
      ensures old(next) < |file| ==> c == file[old(next)] && next == old(next) + 1 && eofBit == old(eofBit)
      ensures old(next) == |file| ==> c == EofChar && next == old(next) && eofBit
    {
      if next < |file| {
        c := file[next];
        next := next + 1;
      } else {
        c := EofChar;
        eofBit := true;
      }
    }

    /** Moves the position past `current`; nothing changes once the end of the file is reached. */
    method UpdatePos()
      modifies this`pos
      ensures pos == if eofBit then old(pos) else Advance(old(pos), current)
    {
      if eofBit {
        return;
      }
      if current == '\n' {
        pos := Position(pos.line + 1, 1);
      } else {
        pos := Position(pos.line, pos.col + 1);
      }
    }

    /**
     * Consumes the character under the cursor and moves to the next one
     * that is not a newline; every character skipped on the way is a newline.
     */
    method NextC()
      requires next <= |file| && !eofBit
      requires Advance(pos, current) == PosOf(file, next)
      modifies this`next, this`eofBit, this`current, this`pos
      ensures Valid()
      ensures old(next) <= Cursor()
      ensures forall k :: old(next) <= k < Cursor() ==> file[k] == '\n'
    {
      UpdatePos();
      current := Get();
      while current == '\n'
        invariant next <= |file|
        invariant eofBit ==> next == |file| && current == EofChar && pos == PosOf(file, |file|)
        invariant !eofBit ==> old(next) < next && current == file[next - 1] && pos == PosOf(file, next - 1)
        invariant forall k :: old(next) <= k < (if eofBit then next else next - 1) ==> file[k] == '\n'
        decreases |file| - next, if eofBit then 0 else 1
      {
        UpdatePos();
        current := Get();
      }
    }

    /**
     * Returns the next symbol token with the position its character had, or
     * the end-of-file token once the input is exhausted, on this and every
     * later call.
     */
    method NextToken() returns (tok: Token)
      requires Valid()
      modifies this`next, this`eofBit, this`current, this`pos
      ensures Valid()
      ensures old(Remaining()) != [] ==> tok == old(Remaining())[0] && Remaining() == old(Remaining())[1..]
      ensures old(Remaining()) == [] ==> tok == Token(PosOf(file, |file|), Eof) && eofBit && Remaining() == []
      ensures old(eofBit) ==> unchanged(this)
    {
      while !eofBit
        invariant Valid()
        invariant Remaining() == old(Remaining())
        invariant old(eofBit) ==> unchanged(this)
        decreases |file| - next, if eofBit then 0 else 1
      {
        var c := current;
        var p := pos;
        ghost var at := next - 1;
        NextC();
        SkipNonSymbols(file, at + 1, Cursor());
        if IsSymbol(c) {
          return Token(p, KindOf(c));
        }
      }
      tok := Token(pos, Eof);
    }
  }
}
