/**
 * The folding pass: one left-to-right sweep over a command array that
 * collapses each maximal run of two or more Arithmetic (or Shift) commands
 * into a single command carrying the run's signed total, deletes a run
 * whose total is zero, folds loop bodies recursively and deletes a loop
 * whose folded body is empty.  Deleted commands are rotated past the
 * `last` cursor, so the kept commands stay in order in `a[..last]`.
 *
 * `Fold` is the specification: the pass never looks back at what it has
 * already produced, so the result is what has been emitted so far followed
 * by the fold of the commands still ahead of the cursor.
 */
module Folding {
  import opened Commands

  /** The two kinds of command the pass merges into runs. */
  datatype RunKind = ArithRun | ShiftRun

  predicate InRun(c: Command, k: RunKind) {
    match k
    case ArithRun => c.Arithmetic?
    case ShiftRun => c.Shift?
  }

  /** The run kind of an Arithmetic or Shift command. */
  function RunKindOf(c: Command): (k: RunKind)
    requires c.Arithmetic? || c.Shift?
    ensures InRun(c, k)
  {
    if c.Arithmetic? then ArithRun else ShiftRun
  }

  /** The length of the maximal run of kind `k` at the front of `s`. */
  function RunLength(s: seq<Command>, k: RunKind): (n: nat)
    ensures n <= |s|
    ensures forall j :: 0 <= j < n ==> InRun(s[j], k)
    ensures n < |s| ==> !InRun(s[n], k)
  {
    if s == [] || !InRun(s[0], k) then 0 else 1 + RunLength(s[1..], k)
  }

  /** The signed total of a run: Add and Right count up, Sub and Left count down. */
  function RunSum(s: seq<Command>): int {
    if s == [] then 0 else RunSum(s[..|s| - 1]) + Delta(s[|s| - 1])
  }

  /** The single command that replaces a run with a nonzero total. */
  function Collapse(k: RunKind, total: int): (c: Command)
    requires total != 0
    ensures InRun(c, k) && Delta(c) == total && c.amount > 0
  {
    match k
    case ArithRun => if total < 0 then Arithmetic(Sub, -total) else Arithmetic(Add, total)
    case ShiftRun => if total < 0 then Shift(Left, -total) else Shift(Right, total)
  }

  /** Dropping commands from the front makes a sequence strictly smaller. */
  lemma {:induction false} SeqSizeDrop(s: seq<Command>, n: nat)
    requires 1 <= n <= |s|
    ensures SeqSize(s[n..]) < SeqSize(s)
    decreases n
  {
    if n > 1 {
      SeqSizeDrop(s[1..], n - 1);
      assert s[1..][n - 1..] == s[n..];
    }
  }

  /** What the pass turns `s` into; folding never makes a program longer. */
  function Fold(s: seq<Command>): (r: seq<Command>)
    ensures |r| <= |s|
    decreases SeqSize(s)
  {
    if s == [] then []
    else
      assert SeqSize(s) == Size(s[0]) + SeqSize(s[1..]);
      match s[0]
      case IO(_) => [s[0]] + Fold(s[1..])
      case Loop(b) =>
        var body := Fold(b);
        (if body == [] then [] else [Loop(body)]) + Fold(s[1..])
      case _ =>
        var k := RunKindOf(s[0]);
        var n := RunLength(s, k);
        if n <= 1 then [s[0]] + Fold(s[1..])
        else
          var total := RunSum(s[..n]);
          SeqSizeDrop(s, n);
          (if total == 0 then [] else [Collapse(k, total)]) + Fold(s[n..])
  }

  /** The three shapes of `Fold` at the front of a sequence. */
  lemma FoldKeep(s: seq<Command>)
    requires s != [] && (s[0].IO? || ((s[0].Arithmetic? || s[0].Shift?) && RunLength(s, RunKindOf(s[0])) <= 1))
    ensures Fold(s) == [s[0]] + Fold(s[1..])
  {
  }

  lemma FoldRunHead(s: seq<Command>, k: RunKind)
    requires s != [] && InRun(s[0], k) && RunLength(s, k) > 1
    ensures var n := RunLength(s, k); var total := RunSum(s[..n]);
      Fold(s) == (if total == 0 then [] else [Collapse(k, total)]) + Fold(s[n..])
  {
    assert RunKindOf(s[0]) == k;
  }

  lemma FoldLoopHead(s: seq<Command>)
    requires s != [] && s[0].Loop?
    ensures Fold(s) == (if Fold(s[0].body) == [] then [] else [Loop(Fold(s[0].body))]) + Fold(s[1..])
  {
  }

  /** Where a rotation of [first, last) about `mid` leaves each part. */
  lemma Rotated(before: seq<Command>, after: seq<Command>, first: nat, mid: nat, last: nat)
    requires first <= mid <= last <= |before|
    requires after == before[..first] + before[mid..last] + before[first..mid] + before[last..]
    ensures |after| == |before|
    ensures after[..first] == before[..first] && after[last..] == before[last..]
    ensures after[first..first + (last - mid)] == before[mid..last]
  {
  }

  /*
   * What the fold promises.
   */

  /** The sub-sequences `Fold` recurses on are smaller. */
  lemma FoldMeasure(s: seq<Command>)
    requires s != []
    ensures SeqSize(s[1..]) < SeqSize(s)
    ensures s[0].Loop? ==> SeqSize(s[0].body) < SeqSize(s)
  {
  }

  /** No loop in a folded program has an empty body. */
  lemma {:induction false} FoldNoEmptyLoops(s: seq<Command>)
    ensures NoEmptyLoops(Fold(s))
    decreases SeqSize(s)
  {
    if s != [] {
      FoldMeasure(s);
      var head: seq<Command>, rest: seq<Command>;
      match s[0] {
      case IO(_) =>
        FoldKeep(s);
        head, rest := [s[0]], s[1..];
      case Loop(b) =>
        FoldLoopHead(s);
        FoldNoEmptyLoops(b);
        head, rest := if Fold(b) == [] then [] else [Loop(Fold(b))], s[1..];
      case _ =>
        var k := RunKindOf(s[0]);
        var n := RunLength(s, k);
        if n <= 1 {
          FoldKeep(s);
          head, rest := [s[0]], s[1..];
        } else {
          FoldRunHead(s, k);
          SeqSizeDrop(s, n);
          var total := RunSum(s[..n]);
          head, rest := if total == 0 then [] else [Collapse(k, total)], s[n..];
        }
      }
      assert Fold(s) == head + Fold(rest);
      assert NoEmptyLoops(head);
      FoldNoEmptyLoops(rest);
    }
  }

  /** Folding keeps every amount positive: a collapsed run never carries 0. */
  lemma {:induction false} FoldPositive(s: seq<Command>)
    requires PositiveAmounts(s)
    ensures PositiveAmounts(Fold(s))
    decreases SeqSize(s), 1
  {
    if s != [] {
      match s[0] {
        case Loop(_) => FoldPositiveLoop(s);
        case IO(_) => FoldPositiveKeep(s);
        case _ =>
          if RunLength(s, RunKindOf(s[0])) <= 1 {
            FoldPositiveKeep(s);
          } else {
            FoldPositiveRun(s);
          }
      }
    }
  }

  lemma {:induction false} FoldPositiveKeep(s: seq<Command>)
    requires PositiveAmounts(s)
    requires s != [] && (s[0].IO? || ((s[0].Arithmetic? || s[0].Shift?) && RunLength(s, RunKindOf(s[0])) <= 1))
    ensures PositiveAmounts(Fold(s))
    decreases SeqSize(s), 0
  {
    FoldMeasure(s);
    FoldKeep(s);
    assert PositiveAmounts(s[1..]) && PositiveCommand(s[0]);
    FoldPositive(s[1..]);
    PositiveConcat([s[0]], Fold(s[1..]));
  }

  lemma {:induction false} FoldPositiveLoop(s: seq<Command>)
    requires PositiveAmounts(s) && s != [] && s[0].Loop?
    ensures PositiveAmounts(Fold(s))
    decreases SeqSize(s), 0
  {
    FoldMeasure(s);
    FoldLoopHead(s);
    assert PositiveAmounts(s[1..]) && PositiveCommand(s[0]);
    FoldPositive(s[0].body);
    FoldPositive(s[1..]);
    var body := Fold(s[0].body);
    var head := if body == [] then [] else [Loop(body)];
    assert PositiveAmounts(head) by {
      if body != [] {
        assert PositiveCommand(Loop(body));
      }
    }
    PositiveConcat(head, Fold(s[1..]));
  }

  lemma {:induction false} FoldPositiveRun(s: seq<Command>)
    requires PositiveAmounts(s)
    requires s != [] && (s[0].Arithmetic? || s[0].Shift?) && RunLength(s, RunKindOf(s[0])) > 1
    ensures PositiveAmounts(Fold(s))
    decreases SeqSize(s), 0
  {
    var k := RunKindOf(s[0]);
    var n := RunLength(s, k);
    var total := RunSum(s[..n]);
    var head := if total == 0 then [] else [Collapse(k, total)];
    FoldRunHead(s, k);
    SeqSizeDrop(s, n);
    PositiveSuffix(s, n);
    FoldPositive(s[n..]);
    CollapsedPositive(k, total);
    PositiveConcat(head, Fold(s[n..]));
  }

  lemma PositiveSuffix(s: seq<Command>, n: nat)
    requires PositiveAmounts(s) && n <= |s|
    ensures PositiveAmounts(s[n..])
  {
    forall j | 0 <= j < |s[n..]| ensures PositiveCommand(s[n..][j]) {
      assert s[n..][j] == s[n + j];
    }
  }

  /** What a run folds to carries a positive amount. */
  lemma CollapsedPositive(k: RunKind, total: int)
    ensures PositiveAmounts(if total == 0 then [] else [Collapse(k, total)])
  {
    if total != 0 {
      assert PositiveCommand(Collapse(k, total));
    }
  }

  lemma PositiveConcat(a: seq<Command>, b: seq<Command>)
    requires PositiveAmounts(a) && PositiveAmounts(b)
    ensures PositiveAmounts(a + b)
  {
    forall j | 0 <= j < |a + b| ensures PositiveCommand((a + b)[j]) {
      if j >= |a| {
        assert (a + b)[j] == b[j - |a|];
      }
    }
  }

  /** The input and output commands of a program, in execution-tree order. */
  function IoTrace(s: seq<Command>): seq<IoType>
    decreases s
  {
    if s == [] then [] else CommandTrace(s[0]) + IoTrace(s[1..])
  }

  function CommandTrace(c: Command): seq<IoType>
    decreases c
  {
    match c
    case IO(io) => [io]
    case Loop(b) => IoTrace(b)
    case _ => []
  }

  /** A run of Arithmetic or Shift commands performs no input or output. */
  lemma {:induction false} RunTraceEmpty(s: seq<Command>, k: RunKind, n: nat)
    requires n <= RunLength(s, k)
    ensures IoTrace(s) == IoTrace(s[n..])
    decreases n
  {
    if n > 0 {
      RunTraceEmpty(s[1..], k, n - 1);
      assert s[1..][n - 1..] == s[n..];
    }
  }

  /**
   * Folding keeps every input and output command, in order: runs hold
   * none, and a loop is deleted only when its folded body is empty, which
   * means its body held none either.
   */
  lemma {:induction false} FoldTrace(s: seq<Command>)
    ensures IoTrace(Fold(s)) == IoTrace(s)
    decreases SeqSize(s), 1
  {
    if s != [] {
      match s[0] {
        case Loop(_) => FoldTraceLoop(s);
        case IO(_) => FoldTraceKeep(s);
        case _ =>
          if RunLength(s, RunKindOf(s[0])) <= 1 {
            FoldTraceKeep(s);
          } else {
            FoldTraceRun(s);
          }
      }
    }
  }

  lemma {:induction false} FoldTraceKeep(s: seq<Command>)
    requires s != [] && (s[0].IO? || ((s[0].Arithmetic? || s[0].Shift?) && RunLength(s, RunKindOf(s[0])) <= 1))
    ensures IoTrace(Fold(s)) == IoTrace(s)
    decreases SeqSize(s), 0
  {
    FoldMeasure(s);
    FoldKeep(s);
    FoldTrace(s[1..]);
    TraceAppend([s[0]], Fold(s[1..]));
    assert [s[0]][1..] == [];
  }

  lemma {:induction false} FoldTraceLoop(s: seq<Command>)
    requires s != [] && s[0].Loop?
    ensures IoTrace(Fold(s)) == IoTrace(s)
    decreases SeqSize(s), 0
  {
    FoldMeasure(s);
    FoldLoopHead(s);
    var body := Fold(s[0].body);
    FoldTrace(s[0].body);
    FoldTrace(s[1..]);
    var head := if body == [] then [] else [Loop(body)];
    TraceAppend(head, Fold(s[1..]));
    assert IoTrace(head) == CommandTrace(s[0]) by {
      if body != [] {
        assert head[1..] == [];
      }
    }
  }

  lemma {:induction false} FoldTraceRun(s: seq<Command>)
    requires s != [] && (s[0].Arithmetic? || s[0].Shift?) && RunLength(s, RunKindOf(s[0])) > 1
    ensures IoTrace(Fold(s)) == IoTrace(s)
    decreases SeqSize(s), 0
  {
    var k := RunKindOf(s[0]);
    var n := RunLength(s, k);
    var total := RunSum(s[..n]);
    var head := if total == 0 then [] else [Collapse(k, total)];
    FoldRunHead(s, k);
    SeqSizeDrop(s, n);
    CollapsedTrace(k, total);
    RunTraceEmpty(s, k, n);
    FoldTrace(s[n..]);
    TraceAppend(head, Fold(s[n..]));
  }

  /** What a run folds to performs no input or output. */
  lemma CollapsedTrace(k: RunKind, total: int)
    ensures IoTrace(if total == 0 then [] else [Collapse(k, total)]) == []
  {
    if total != 0 {
      assert [Collapse(k, total)][1..] == [];
    }
  }

  lemma {:induction false} TraceAppend(a: seq<Command>, b: seq<Command>)
    ensures IoTrace(a + b) == IoTrace(a) + IoTrace(b)
    decreases |a|
  {
    if a != [] {
      assert (a + b)[0] == a[0] && (a + b)[1..] == a[1..] + b;
      TraceAppend(a[1..], b);
      calc {
        IoTrace(a + b);
        CommandTrace(a[0]) + IoTrace(a[1..] + b);
        CommandTrace(a[0]) + (IoTrace(a[1..]) + IoTrace(b));
      }
    } else {
      assert a + b == b;
    }
  }

  /**
   * The cursor never moves back, so runs that meet only after a deletion
   * stay apart: `+><+` folds to two Add 1 commands, and folding that
   * again gives Add 2.  Folding is therefore not idempotent.
   */
  lemma NotIdempotent()
    ensures var p := [Arithmetic(Add, 1), Shift(Right, 1), Shift(Left, 1), Arithmetic(Add, 1)];
      Fold(p) == [Arithmetic(Add, 1), Arithmetic(Add, 1)] && Fold(Fold(p)) == [Arithmetic(Add, 2)]
  {
    var p := [Arithmetic(Add, 1), Shift(Right, 1), Shift(Left, 1), Arithmetic(Add, 1)];
    var q := [Arithmetic(Add, 1), Arithmetic(Add, 1)];
    assert RunLength(p, ArithRun) == 1;
    assert RunLength(p[1..], ShiftRun) == 2;
    assert p[1..][..2] == [Shift(Right, 1), Shift(Left, 1)];
    assert [Shift(Right, 1), Shift(Left, 1)][..1] == [Shift(Right, 1)];
    assert [Shift(Right, 1)][..0] == [];
    assert RunSum(p[1..][..2]) == 0;
    assert p[1..][2..] == [Arithmetic(Add, 1)];
    assert Fold(p[1..]) == [Arithmetic(Add, 1)];
    assert RunLength(q, ArithRun) == 2;
    assert q[..2] == q;
    assert q[..1] == [Arithmetic(Add, 1)];
    assert [Arithmetic(Add, 1)][..0] == [];
    assert RunSum(q) == 2;
    assert q[2..] == [];
  }

  /*
   * The in-place pass.
   */

  /**
   * `std::rotate`: the elements of [mid, last) move to `first`, the
   * elements of [first, mid) follow them, and the returned index is where
   * the old `first` element now sits.
   */
  method Rotate(a: array<Command>, first: nat, mid: nat, last: nat) returns (r: nat)
    requires first <= mid <= last <= a.Length
    modifies a
    ensures r == first + (last - mid)
    ensures a[..] == old(a[..first]) + old(a[mid..last]) + old(a[first..mid]) + old(a[last..])
  {
    ghost var before := a[..];
    var moved := a[mid..last] + a[first..mid];
    var i := first;
    while i < last
      invariant first <= i <= last
      invariant forall j :: 0 <= j < a.Length ==> a[j] == if first <= j < i then moved[j - first] else before[j]
    {
      a[i] := moved[i - first];
      i := i + 1;
    }
    r := first + (last - mid);
    assert a[..] == before[..first] + moved + before[last..];
  }

  /** `std::find_if` for the first command after `first` that is not of kind `k`. */
  method FindRunEnd(a: array<Command>, first: nat, last: nat, k: RunKind) returns (e: nat)
    requires first <= last <= a.Length
    ensures e - first == RunLength(a[first..last], k) && first <= e <= last
  {
    e := first;
    while e < last && InRun(a[e], k)
      invariant first <= e <= last
      invariant forall j :: first <= j < e ==> InRun(a[j], k)
    {
      e := e + 1;
    }
    RunLengthIs(a[first..last], k, e - first);
  }

  lemma {:induction false} RunLengthIs(s: seq<Command>, k: RunKind, n: nat)
    requires n <= |s| && (forall j :: 0 <= j < n ==> InRun(s[j], k)) && (n < |s| ==> !InRun(s[n], k))
    ensures RunLength(s, k) == n
    decreases n
  {
    if n > 0 {
      RunLengthIs(s[1..], k, n - 1);
    }
  }

  /** The signed total of the run [first, e), summed front to back. */
  method SumRun(a: array<Command>, first: nat, e: nat) returns (total: int)
    requires first <= e <= a.Length
    ensures total == RunSum(a[first..e])
  {
    total := 0;
    var it := first;
    while it < e
      invariant first <= it <= e
      invariant total == RunSum(a[first..it])
    {
      assert a[first..it + 1][..it - first] == a[first..it];
      total := total + Delta(a[it]);
      it := it + 1;
    }
  }

  /**
   * The step relation every handler satisfies: nothing before `first` or
   * from `last` on changes, the commands still ahead of the cursor are a
   * suffix of those that were, and what was emitted followed by the fold
   * of what is left is the fold of the old range.
   */
  ghost predicate Stepped(old_a: seq<Command>, a: seq<Command>, first: nat, last: nat, first': nat, last': nat)
    requires first <= last <= |old_a| == |a|
  {
    && first <= first' <= last' <= last
    && (first < first' || last' < last)
    && a[..first] == old_a[..first]
    && a[last..] == old_a[last..]
    && a[first'..last'] == old_a[first..last][(last - first) - (last' - first')..]
    && a[first..first'] + Fold(a[first'..last']) == Fold(old_a[first..last])
  }

  /** A handler that keeps the command under the cursor and moves on. */
  lemma KeepStepped(before: seq<Command>, first: nat, last: nat)
    requires first < last <= |before|
    requires Fold(before[first..last]) == [before[first]] + Fold(before[first + 1..last])
    ensures Stepped(before, before, first, last, first + 1, last)
  {
    assert before[first + 1..last] == before[first..last][1..];
    assert before[first..first + 1] == [before[first]];
  }

  /** A run of total zero rotated out of [first, last). */
  lemma ZeroRunStepped(before: seq<Command>, after: seq<Command>, first: nat, e: nat, last: nat, last': nat, k: RunKind)
    requires first + 1 < e <= last <= |before| && InRun(before[first], k)
    requires RunLength(before[first..last], k) == e - first && RunSum(before[first..e]) == 0
    requires after == before[..first] + before[e..last] + before[first..e] + before[last..]
    requires last' == first + (last - e)
    ensures Stepped(before, after, first, last, first, last')
  {
    var s := before[first..last];
    Rotated(before, after, first, e, last);
    assert s[..e - first] == before[first..e];
    assert s[e - first..] == before[e..last];
    FoldRunHead(s, k);
    assert Fold(s) == Fold(s[e - first..]);
    assert (last - first) - (last' - first) == e - first;
    assert after[first..first] == [];
  }

  /** A run of nonzero total: all but one command rotated out, that one overwritten. */
  lemma CollapseStepped(before: seq<Command>, rotated: seq<Command>, after: seq<Command>,
                        first: nat, e: nat, last: nat, first': nat, last': nat, k: RunKind, total: int)
    requires first + 1 < e <= last <= |before| && InRun(before[first], k)
    requires RunLength(before[first..last], k) == e - first && total == RunSum(before[first..e]) && total != 0
    requires rotated == before[..first] + before[e - 1..last] + before[first..e - 1] + before[last..]
    requires after == rotated[first := Collapse(k, total)]
    requires first' == first + 1 && last' == first + (last - e) + 1
    ensures Stepped(before, after, first, last, first', last')
  {
    var s := before[first..last];
    Rotated(before, rotated, first, e - 1, last);
    assert after[first + 1..last'] == rotated[first + 1..last'];
    assert after[..first] == rotated[..first] && after[last..] == rotated[last..];
    assert rotated[first..last'] == before[e - 1..last];
    assert s[..e - first] == before[first..e];
    assert after[first + 1..last'] == s[e - first..];
    assert after[first..first + 1] == [Collapse(k, total)];
    FoldRunHead(s, k);
  }

  /** The Arithmetic and Shift handlers: fold the maximal run of kind `k` at `first`. */
  method VisitRun(a: array<Command>, first: nat, last: nat, k: RunKind) returns (first': nat, last': nat)
    requires first < last <= a.Length && InRun(a[first], k)
    modifies a
    ensures Stepped(old(a[..]), a[..], first, last, first', last')
  {
    ghost var before := a[..];
    var e := FindRunEnd(a, first, last, k);
    if e - first <= 1 {
      // a lone command stays as it is
      assert RunKindOf(a[first]) == k;
      FoldKeep(before[first..last]);
      KeepStepped(before, first, last);
      return first + 1, last;
    }
    var total := SumRun(a, first, e);
    if total == 0 {
      first', last' := DropRun(a, first, e, last, k);
    } else {
      first', last' := CollapseRun(a, first, e, last, k, total);
    }
  }

  /** A run of two or more commands that sums to zero is rotated out in full. */
  method DropRun(a: array<Command>, first: nat, e: nat, last: nat, k: RunKind) returns (first': nat, last': nat)
    requires first + 1 < e <= last <= a.Length && InRun(a[first], k)
    requires e - first == RunLength(a[first..last], k)
    requires RunSum(a[first..e]) == 0
    modifies a
    ensures first' == first && last' == first + (last - e)
    ensures Stepped(old(a[..]), a[..], first, last, first', last')
  {
    ghost var before := a[..];
    last' := Rotate(a, first, e, last);
    first' := first;
    ZeroRunStepped(before, a[..], first, e, last, last', k);
  }

  /** A run of two or more commands with a nonzero sum: all but one are rotated out,
      and that one is overwritten by the collapsed command. */
  method CollapseRun(a: array<Command>, first: nat, e: nat, last: nat, k: RunKind, total: int)
    returns (first': nat, last': nat)
    requires first + 1 < e <= last <= a.Length && InRun(a[first], k)
    requires e - first == RunLength(a[first..last], k)
    requires total == RunSum(a[first..e]) && total != 0
    modifies a
    ensures first' == first + 1 && a[first] == Collapse(k, total)
    ensures Stepped(old(a[..]), a[..], first, last, first', last')
  {
    ghost var before := a[..];
    last' := Rotate(a, first, e - 1, last);
    ghost var rotated := a[..];
    a[first] := Collapse(k, total);
    first' := first + 1;
    CollapseStepped(before, rotated, a[..], first, e, last, first', last', k, total);
  }

  /** The Loop handler: fold the body; drop the loop when nothing is left of it. */
  method VisitLoop(a: array<Command>, first: nat, last: nat) returns (first': nat, last': nat)
    requires first < last <= a.Length && a[first].Loop?
    modifies a
    ensures Stepped(old(a[..]), a[..], first, last, first', last')
    decreases Size(a[first]), 0
  {
    ghost var before := a[..];
    var l := FoldLoop(a[first].body);
    if l.body == [] {
      if first + 1 != last {
        last' := Rotate(a, first, first + 1, last);
        Rotated(before, a[..], first, first + 1, last);
      } else {
        last' := first;
      }
      first' := first;
      EmptyLoopStepped(before, a[..], first, last);
    } else {
      a[first] := l;
      first', last' := first + 1, last;
      LoopStepped(before, a[..], first, last);
    }
  }

  /** A loop whose folded body is empty, moved out of [first, last). */
  lemma EmptyLoopStepped(before: seq<Command>, after: seq<Command>, first: nat, last: nat)
    requires first < last <= |before| == |after| && before[first].Loop? && Fold(before[first].body) == []
    requires after[..first] == before[..first] && after[last..] == before[last..]
    requires after[first..last - 1] == before[first + 1..last]
    ensures Stepped(before, after, first, last, first, last - 1)
  {
    var s := before[first..last];
    FoldLoopHead(s);
    assert s[1..] == before[first + 1..last];
    assert after[first..first] == [];
  }

  /** A loop whose folded body is not empty, replaced by the loop over that body. */
  lemma LoopStepped(before: seq<Command>, after: seq<Command>, first: nat, last: nat)
    requires first < last <= |before| && before[first].Loop? && Fold(before[first].body) != []
    requires after == before[first := Loop(Fold(before[first].body))]
    ensures Stepped(before, after, first, last, first + 1, last)
  {
    var s := before[first..last];
    FoldLoopHead(s);
    assert s[1..] == before[first + 1..last] == after[first + 1..last];
    assert after[first..first + 1] == [Loop(Fold(before[first].body))];
    assert after[..first] == before[..first] && after[last..] == before[last..];
  }

  /** The visitor: dispatch on the command under the cursor. */
  method Visit(a: array<Command>, first: nat, last: nat) returns (first': nat, last': nat)
    requires first < last <= a.Length
    modifies a
    ensures Stepped(old(a[..]), a[..], first, last, first', last')
    decreases Size(a[first]), 1
  {
    match a[first]
    case IO(_) =>
      // nothing to fold
      first', last' := first + 1, last;
      assert a[first'..last'] == a[first..last][1..];
    case Loop(_) =>
      first', last' := VisitLoop(a, first, last);
    case Arithmetic(_, _) =>
      first', last' := VisitRun(a, first, last, ArithRun);
    case Shift(_, _) =>
      first', last' := VisitRun(a, first, last, ShiftRun);
  }

  /** One visitor step keeps the loop invariant of `FoldRange`. */
  lemma StepKeepsInvariant(orig: seq<Command>, before: seq<Command>, after: seq<Command>,
                           first: nat, last: nat, first': nat, last': nat)
    requires first <= last <= |before| == |after| && last - first <= |orig|
    requires before[first..last] == orig[|orig| - (last - first)..]
    requires Fold(orig) == before[..first] + Fold(before[first..last])
    requires Stepped(before, after, first, last, first', last')
    ensures after[first'..last'] == orig[|orig| - (last' - first')..]
    ensures Fold(orig) == after[..first'] + Fold(after[first'..last'])
  {
    var s, rest := before[first..last], after[first'..last'];
    var m := (last - first) - (last' - first');
    assert rest == s[m..];
    SuffixOfSuffix(orig, |orig| - (last - first), m, |orig| - (last' - first'));
    Regrouped(after, before[..first], first, first', Fold(orig), Fold(s), Fold(rest));
  }

  lemma SuffixOfSuffix(s: seq<Command>, k: nat, m: nat, km: nat)
    requires k + m <= |s| && km == k + m
    ensures s[k..][m..] == s[km..]
  {
  }

  /** The emitted prefix grows by what one step emitted. */
  lemma Regrouped(after: seq<Command>, prefix: seq<Command>, first: nat, first': nat,
                  total: seq<Command>, folded: seq<Command>, folded': seq<Command>)
    requires first <= first' <= |after| && after[..first] == prefix
    requires total == prefix + folded && folded == after[first..first'] + folded'
    ensures total == after[..first'] + folded'
  {
    assert after[..first'] == prefix + after[first..first'];
  }

  /**
   * `fold`: run the visitor from the front until the cursors meet; the
   * folded program is then `a[..last]` and the rest of the array is what
   * `erase` drops.
   */
  method FoldRange(a: array<Command>) returns (last: nat)
    modifies a
    ensures last <= a.Length && a[..last] == Fold(old(a[..]))
    decreases SeqSize(a[..]), 2
  {
    ghost var orig := a[..];
    var first := 0;
    last := a.Length;
    while first != last
      invariant first <= last <= a.Length
      invariant a[first..last] == orig[|orig| - (last - first)..]
      invariant Fold(orig) == a[..first] + Fold(a[first..last])
      decreases last - first
    {
      SizeOfElement(orig, |orig| - (last - first));
      ghost var before := a[..];
      var first', last' := Visit(a, first, last);
      StepKeepsInvariant(orig, before, a[..], first, last, first', last');
      first, last := first', last';
    }
  }

  /** `fold_loop`: fold a copy of the body and build a loop from what is left. */
  method FoldLoop(body: seq<Command>) returns (l: Command)
    ensures l == Loop(Fold(body))
    decreases SeqSize(body), 3
  {
    var cmds := new Command[|body|](i requires 0 <= i < |body| => body[i]);
    assert cmds[..] == body;
    var n := FoldRange(cmds);
    l := Loop(cmds[..n]);
  }
}
