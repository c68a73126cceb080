/**
 * The code generator: every command becomes a run of slots of a flat
 * array that the runtime walks with its `SP` cursor.  A non-loop command
 * is one slot; a loop is a check slot, the slots of its body and a
 * back-jump slot, and both jumps are measured by the loop's depth, the
 * number of slots it flattens to.
 *
 * The slots are the JavaScript closures of the generated page, kept as
 * an abstract instruction set: what a closure does is given by
 * `Runtime.Step`; the text of the closures is not modelled.
 */
module CodeGen {
  import opened Commands

  /** One closure of the generated `commands_` array. */
  datatype Slot =
    | AddSlot(delta: int)     // add `delta` to the current cell, then advance
    | ShiftSlot(delta: int)   // fault when the cursor would go below 0, else move and advance
    | GetChar                 // read one character into the current cell
    | PutChar                 // write the current cell
    | CheckSlot(skip: nat)    // jump `skip` slots ahead on a zero cell, else advance
    | JumpSlot(back: nat)     // jump `back` slots back

  /** `loop_depth_visitor`: one slot per non-loop command, two more per loop. */
  function Depth(c: Command): (d: nat)
    ensures d >= 1 && (c.Loop? ==> d >= 2) && (!c.Loop? ==> d == 1)
    decreases c
  {
    match c
    case Loop(b) => 2 + BodyDepth(b)
    case _ => 1
  }

  function BodyDepth(s: seq<Command>): (d: nat)
    ensures d >= |s|
    decreases s
  {
    if s == [] then 0 else Depth(s[0]) + BodyDepth(s[1..])
  }

  /** The one slot of a non-loop command. */
  function SlotOf(c: Command): (r: Slot)
    requires !c.Loop?
    ensures !r.CheckSlot? && !r.JumpSlot?
    ensures r.AddSlot? <==> c.Arithmetic?
    ensures r.ShiftSlot? <==> c.Shift?
  {
    match c
    case Arithmetic(_, _) => AddSlot(Delta(c))
    case Shift(_, _) => ShiftSlot(Delta(c))
    case IO(In) => GetChar
    case IO(Out) => PutChar
  }

  /** What `cmd_to_js` emits for a command. */
  function Flatten(c: Command): (r: seq<Slot>)
    ensures |r| >= 1
    ensures c.Loop? <==> r[0].CheckSlot?
    ensures c.Loop? ==> |r| >= 2 && r[|r| - 1].JumpSlot?
    decreases c
  {
    match c
    case Loop(b) => [CheckSlot(Depth(c))] + FlattenSeq(b) + [JumpSlot(Depth(c) - 1)]
    case _ => [SlotOf(c)]
  }

  /** The slots of a command sequence, one command after the other. */
  function FlattenSeq(s: seq<Command>): (r: seq<Slot>)
    ensures |r| >= |s|
    decreases s
  {
    if s == [] then [] else Flatten(s[0]) + FlattenSeq(s[1..])
  }

  /*
   * The generator.
   */

  /** `cmd_to_js`: a loop emits its check, then each body command in turn, then its back-jump. */
  method CmdToJs(c: Command) returns (slots: seq<Slot>)
    ensures slots == Flatten(c)
    decreases c
  {
    match c {
      case Loop(b) =>
        var depth := Depth(c);
        slots := [CheckSlot(depth)];
        for i := 0 to |b|
          invariant slots == [CheckSlot(depth)] + FlattenSeq(b[..i])
        {
          assert b[i] in b;
          var body := CmdToJs(b[i]);
          FlattenSeqSnoc(b, i);
          slots := slots + body;
        }
        assert b[..|b|] == b;
        slots := slots + [JumpSlot(depth - 1)];
      case _ =>
        slots := [SlotOf(c)];
    }
  }

  /** The slot loop of `emit_code_`: the program's commands, flattened in order. */
  method EmitCode(p: Program) returns (commands: seq<Slot>)
    ensures commands == FlattenSeq(p)
  {
    commands := [];
    for i := 0 to |p|
      invariant commands == FlattenSeq(p[..i])
    {
      var slots := CmdToJs(p[i]);
      FlattenSeqSnoc(p, i);
      commands := commands + slots;
    }
    assert p[..|p|] == p;
  }

  /*
   * What the generator promises.
   */

  /** Flattening one more command appends its slots. */
  lemma FlattenSeqSnoc(s: seq<Command>, i: nat)
    requires i < |s|
    ensures FlattenSeq(s[..i + 1]) == FlattenSeq(s[..i]) + Flatten(s[i])
  {
    assert s[..i + 1] == s[..i] + [s[i]];
    FlattenSeqAppend(s[..i], [s[i]]);
    assert [s[i]][1..] == [];
  }

  /** Flattening distributes over concatenation: commands keep program order. */
  lemma {:induction false} FlattenSeqAppend(a: seq<Command>, b: seq<Command>)
    ensures FlattenSeq(a + b) == FlattenSeq(a) + FlattenSeq(b)
    decreases |a|
  {
    if a == [] {
      assert a + b == b;
    } else {
      assert (a + b)[0] == a[0] && (a + b)[1..] == a[1..] + b;
      FlattenSeqAppend(a[1..], b);
    }
  }

  /** The slots of the `k`-th command start after those of the commands before it. */
  lemma FlattenAt(p: seq<Command>, k: nat)
    requires k < |p|
    ensures FlattenSeq(p) == FlattenSeq(p[..k]) + Flatten(p[k]) + FlattenSeq(p[k + 1..])
    ensures |FlattenSeq(p[..k])| == BodyDepth(p[..k])
  {
    assert p == p[..k] + ([p[k]] + p[k + 1..]);
    FlattenSeqAppend(p[..k], [p[k]] + p[k + 1..]);
    assert ([p[k]] + p[k + 1..])[0] == p[k] && ([p[k]] + p[k + 1..])[1..] == p[k + 1..];
    FlattenSeqLength(p[..k]);
  }

  /** A command flattens to exactly `Depth` slots. */
  lemma {:induction false} FlattenLength(c: Command)
    ensures |Flatten(c)| == Depth(c)
    decreases c, 1
  {
    match c
    case Loop(b) => FlattenSeqLength(b);
    case _ =>
  }

  lemma {:induction false} FlattenSeqLength(s: seq<Command>)
    ensures |FlattenSeq(s)| == BodyDepth(s)
    decreases s, 0
  {
    if s != [] {
      FlattenLength(s[0]);
      FlattenSeqLength(s[1..]);
    }
  }

  /**
   * The jump-correctness invariant of a slot array: a check slot at `i`
   * skips to just past a back-jump at `i + skip - 1`, and that back-jump
   * leads back to the check; a back-jump at `i` leads to a check at
   * `i - back` whose skip lands just past `i`.
   */
  predicate WellJumped(slots: seq<Slot>) {
    ChecksLand(slots) && JumpsLand(slots)
  }

  predicate ChecksLand(slots: seq<Slot>) {
    forall i :: 0 <= i < |slots| && slots[i].CheckSlot? ==>
      2 <= slots[i].skip && i + slots[i].skip <= |slots| &&
      slots[i + slots[i].skip - 1] == JumpSlot(slots[i].skip - 1)
  }

  predicate JumpsLand(slots: seq<Slot>) {
    forall i :: 0 <= i < |slots| && slots[i].JumpSlot? ==>
      slots[i].back <= i && slots[i - slots[i].back] == CheckSlot(slots[i].back + 1)
  }

  /** Placing two well-jumped arrays side by side keeps every jump inside its own half. */
  lemma WellJumpedAppend(a: seq<Slot>, b: seq<Slot>)
    requires WellJumped(a) && WellJumped(b)
    ensures WellJumped(a + b)
  {
    ChecksLandAppend(a, b);
    JumpsLandAppend(a, b);
  }

  lemma ChecksLandAppend(a: seq<Slot>, b: seq<Slot>)
    requires ChecksLand(a) && ChecksLand(b)
    ensures ChecksLand(a + b)
  {
    var ab := a + b;
    forall i | 0 <= i < |ab| && ab[i].CheckSlot?
      ensures 2 <= ab[i].skip && i + ab[i].skip <= |ab| && ab[i + ab[i].skip - 1] == JumpSlot(ab[i].skip - 1)
    {
      if i >= |a| {
        assert ab[i] == b[i - |a|];
      }
    }
  }

  lemma JumpsLandAppend(a: seq<Slot>, b: seq<Slot>)
    requires JumpsLand(a) && JumpsLand(b)
    ensures JumpsLand(a + b)
  {
    var ab := a + b;
    forall i | 0 <= i < |ab| && ab[i].JumpSlot?
      ensures ab[i].back <= i && ab[i - ab[i].back] == CheckSlot(ab[i].back + 1)
    {
      if i >= |a| {
        assert ab[i] == b[i - |a|];
      }
    }
  }

  /** Wrapping a well-jumped body in a check and a back-jump of the right depth keeps it well-jumped. */
  lemma WellJumpedWrap(body: seq<Slot>, d: nat)
    requires WellJumped(body) && d == |body| + 2
    ensures WellJumped([CheckSlot(d)] + body + [JumpSlot(d - 1)])
  {
    var w := [CheckSlot(d)] + body + [JumpSlot(d - 1)];
    forall i | 0 <= i < |w| && w[i].CheckSlot?
      ensures 2 <= w[i].skip && i + w[i].skip <= |w| && w[i + w[i].skip - 1] == JumpSlot(w[i].skip - 1)
    {
      if 0 < i < |w| - 1 {
        assert w[i] == body[i - 1];
      }
    }
    forall i | 0 <= i < |w| && w[i].JumpSlot?
      ensures w[i].back <= i && w[i - w[i].back] == CheckSlot(w[i].back + 1)
    {
      if 0 < i < |w| - 1 {
        assert w[i] == body[i - 1];
      }
    }
  }

  /** Every flattened command, and so every generated program, is well-jumped. */
  lemma {:induction false} FlattenWellJumped(c: Command)
    ensures WellJumped(Flatten(c))
    decreases c, 1
  {
    if c.Loop? {
      LoopWellJumped(c);
    }
  }

  lemma {:induction false} LoopWellJumped(c: Command)
    requires c.Loop?
    ensures WellJumped(Flatten(c))
    decreases c, 0
  {
    var body, d := FlattenSeq(c.body), Depth(c);
    FlattenSeqWellJumped(c.body);
    FlattenSeqLength(c.body);
    WellJumpedWrap(body, d);
    assert Flatten(c) == [CheckSlot(d)] + body + [JumpSlot(d - 1)];
  }

  lemma {:induction false} FlattenSeqWellJumped(s: seq<Command>)
    ensures WellJumped(FlattenSeq(s))
    decreases s, 0
  {
    if s != [] {
      FlattenWellJumped(s[0]);
      FlattenSeqWellJumped(s[1..]);
      WellJumpedAppend(Flatten(s[0]), FlattenSeq(s[1..]));
    }
  }

  /*
   * Commands at any depth.  A path names a command by its index in the
   * program, then its index in that loop's body, and so on inward.
   */

  predicate ValidPath(p: seq<Command>, path: seq<nat>)
    decreases |path|
  {
    && |path| >= 1 && path[0] < |p|
    && (|path| > 1 ==> p[path[0]].Loop? && ValidPath(p[path[0]].body, path[1..]))
  }

  /** The command a path names. */
  function At(p: seq<Command>, path: seq<nat>): Command
    requires ValidPath(p, path)
    decreases |path|
  {
    if |path| == 1 then p[path[0]] else At(p[path[0]].body, path[1..])
  }

  /** Where the slots of the command a path names start: after the commands before it, and one check slot per enclosing loop. */
  function SlotIndex(p: seq<Command>, path: seq<nat>): nat
    requires ValidPath(p, path)
    decreases |path|
  {
    BodyDepth(p[..path[0]]) + (if |path| == 1 then 0 else 1 + SlotIndex(p[path[0]].body, path[1..]))
  }

  /** The generated program holds the slots of every command, at any depth, as one block starting at its `SlotIndex`. */
  lemma {:induction false} SlotsAt(p: seq<Command>, path: seq<nat>)
    requires ValidPath(p, path)
    ensures SlotIndex(p, path) + Depth(At(p, path)) <= |FlattenSeq(p)|
    ensures FlattenSeq(p)[SlotIndex(p, path)..SlotIndex(p, path) + Depth(At(p, path))] == Flatten(At(p, path))
    decreases |path|, 1
  {
    var k := path[0];
    if |path| == 1 {
      FlattenAt(p, k);
      FlattenLength(p[k]);
      SliceInside(FlattenSeq(p), FlattenSeq(p[..k]), Flatten(p[k]), FlattenSeq(p[k + 1..]),
        0, |Flatten(p[k])|, SlotIndex(p, path), SlotIndex(p, path) + Depth(At(p, path)));
    } else {
      SlotsInLoop(p, path);
    }
  }

  lemma {:induction false} SlotsInLoop(p: seq<Command>, path: seq<nat>)
    requires ValidPath(p, path) && |path| > 1
    ensures SlotIndex(p, path) + Depth(At(p, path)) <= |FlattenSeq(p)|
    ensures FlattenSeq(p)[SlotIndex(p, path)..SlotIndex(p, path) + Depth(At(p, path))] == Flatten(At(p, path))
    decreases |path|, 0
  {
    var k, b, rest := path[0], p[path[0]].body, path[1..];
    SlotsAt(b, rest);
    var j, d := SlotIndex(b, rest), Depth(At(b, rest));
    FlattenAt(p, k);
    var pre := FlattenSeq(p[..k]);
    assert Flatten(p[k]) == [CheckSlot(Depth(p[k]))] + FlattenSeq(b) + [JumpSlot(Depth(p[k]) - 1)];
    NestedSlice(FlattenSeq(p), pre, Flatten(p[k]), FlattenSeq(p[k + 1..]), FlattenSeq(b),
      CheckSlot(Depth(p[k])), JumpSlot(Depth(p[k]) - 1), Flatten(At(b, rest)), j, d, SlotIndex(p, path));
    assert At(p, path) == At(b, rest);
  }

  /** A slice of a loop body's slots, seen in the whole array. */
  lemma NestedSlice(whole: seq<Slot>, pre: seq<Slot>, loop: seq<Slot>, post: seq<Slot>, inner: seq<Slot>,
                    check: Slot, jump: Slot, target: seq<Slot>, j: nat, d: nat, i: nat)
    requires whole == pre + loop + post && loop == [check] + inner + [jump]
    requires j + d <= |inner| && inner[j..j + d] == target
    requires i == |pre| + 1 + j
    ensures i + d <= |whole| && whole[i..i + d] == target
  {
    SliceInside(loop, [check], inner, [jump], j, j + d, 1 + j, 1 + j + d);
    SliceInside(whole, pre, loop, post, 1 + j, 1 + j + d, i, i + d);
  }

  /** A slice of the middle part of a concatenation. */
  lemma SliceInside(whole: seq<Slot>, pre: seq<Slot>, mid: seq<Slot>, post: seq<Slot>, i: nat, j: nat, lo: nat, hi: nat)
    requires whole == pre + mid + post && i <= j <= |mid|
    requires lo == |pre| + i && hi == |pre| + j
    ensures whole[lo..hi] == mid[i..j]
  {

  }

  /**
   * A loop's own slots, at any depth: its check skips exactly `Depth`
   * slots, which is just past its back-jump, and that back-jump goes back
   * `Depth - 1` slots, onto the check.
   */
  lemma LoopJumps(p: seq<Command>, path: seq<nat>)
    requires ValidPath(p, path) && At(p, path).Loop?
    ensures var i := SlotIndex(p, path); var d := Depth(At(p, path)); var slots := FlattenSeq(p);
      i + d <= |slots| && slots[i] == CheckSlot(d) && slots[i + d - 1] == JumpSlot(d - 1)
  {
    SlotsAt(p, path);
    var i, c := SlotIndex(p, path), At(p, path);
    FlattenLength(c);
    assert FlattenSeq(p)[i] == Flatten(c)[0];
    assert FlattenSeq(p)[i + Depth(c) - 1] == Flatten(c)[Depth(c) - 1];
  }
}
