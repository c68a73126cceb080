/**
 * The runtime of the generated page: a `Program` object holding the slot
 * array, the slot cursor `SP`, the cursor saved before each slot runs,
 * the cell store and the cell cursor.  `process_command` runs slots while
 * `SP` is inside the array; a segmentation fault, and a read with no
 * input waiting, end the run by moving `SP` to the array's length.
 *
 * Characters are kept as their integer codes and cells are unbounded
 * integers.  The input buffer of the page's I/O manager is a sequence,
 * and "no input yet" is a pause: the retry that the page schedules with a
 * timer is the `Retry` method.
 */
module Runtime {
  import opened CodeGen

  /** What the page prints: a character, or the segmentation-fault line. */
  datatype Output = Char(code: int) | SegFault

  /** The mutable state of the `Program` object, as a value. */
  datatype State = State(
    sp: int,                 // SP_
    spSave: int,             // SP_save_
    cells: map<int, int>,    // value_arr_
    cur: int,                // cur_
    input: seq<int>,         // characters typed but not read yet
    output: seq<Output>,     // what has been printed
    waiting: bool)           // a read found no input and a retry is pending

  /** The state `init` sets up: cell 0 holds 0 and both cursors are at 0. */
  function Initial(input: seq<int>): (r: State)
    ensures forall commands :: Valid(commands, r)
    ensures r.cells[r.cur] == 0 && r.input == input && r.output == []
  {
    State(0, 0, map[0 := 0], 0, input, [], false)
  }

  /**
   * The state the runtime keeps between slots: the cell under the cursor
   * exists, `SP` is inside the array or just past it, and a pending retry
   * remembers the read slot it is for.
   */
  predicate Valid(commands: seq<Slot>, st: State) {
    && 0 <= st.cur && st.cur in st.cells
    && 0 <= st.sp <= |commands|
    && (st.waiting ==> 0 <= st.spSave < |commands| && commands[st.spSave] == GetChar && st.sp == |commands|)
  }

  /** `get_char`: take the next character and resume after the read slot, or stop and wait. */
  function ReadChar(commands: seq<Slot>, st: State): (st': State)
    requires st.cur in st.cells
    ensures st'.cur == st.cur && st'.cur in st'.cells && st'.output == st.output
  {
    if st.input != [] then
      st.(cells := st.cells[st.cur := st.input[0]], input := st.input[1..], sp := st.spSave + 1, waiting := false)
    else
      st.(sp := |commands|, waiting := true)
  }

  /** `seg_fault`: print the fault line and stop. */
  function Fault(commands: seq<Slot>, st: State): (st': State)
    ensures st'.sp == |commands| && st'.output == st.output + [SegFault]
    ensures st'.cells == st.cells && st'.cur == st.cur
  {
    st.(output := st.output + [SegFault], sp := |commands|)
  }

  /** What one slot's closure does to the state. */
  function Exec(commands: seq<Slot>, slot: Slot, st: State): (st': State)
    requires st.cur in st.cells
    ensures st'.cur in st'.cells
    ensures |st.output| <= |st'.output| && st'.output[..|st.output|] == st.output
    ensures st'.spSave == st.spSave
  {
    match slot
    case AddSlot(d) => st.(cells := st.cells[st.cur := st.cells[st.cur] + d], sp := st.sp + 1)
    case ShiftSlot(d) =>
      if st.cur + d < 0 then Fault(commands, st)
      else
        var cur := st.cur + d;
        st.(cur := cur, cells := if cur in st.cells then st.cells else st.cells[cur := 0], sp := st.sp + 1)
    case GetChar => ReadChar(commands, st)
    case PutChar => st.(output := st.output + [Char(st.cells[st.cur])], sp := st.sp + 1)
    case CheckSlot(skip) => if st.cells[st.cur] == 0 then st.(sp := st.sp + skip) else st.(sp := st.sp + 1)
    case JumpSlot(back) => st.(sp := st.sp - back)
  }

  /** One turn of the `process_command` loop: save `SP`, then run the slot it points at. */
  function Step(commands: seq<Slot>, st: State): (st': State)
    requires 0 <= st.sp < |commands| && st.cur in st.cells
    ensures st'.spSave == st.sp && st'.cur in st'.cells
    ensures |st.output| <= |st'.output| && st'.output[..|st.output|] == st.output
  {
    Exec(commands, commands[st.sp], st.(spSave := st.sp))
  }

  /** `process_command`, cut off after `fuel` slots: run slots while `SP` is inside the array. */
  function Run(commands: seq<Slot>, st: State, fuel: nat): (st': State)
    requires WellJumped(commands) && Valid(commands, st)
    ensures Valid(commands, st')
    ensures |st.output| <= |st'.output| && st'.output[..|st.output|] == st.output
    decreases fuel
  {
    if fuel == 0 || st.sp == |commands| then st
    else
      StepKeepsValid(commands, st);
      Run(commands, Step(commands, st), fuel - 1)
  }

  /*
   * The `Program` object of the generated page.
   */

  class Machine {
    const commands: seq<Slot>
    var sp: int
    var spSave: int
    var cells: map<int, int>
    var cur: int
    var input: seq<int>
    var output: seq<Output>
    var waiting: bool

    /** The object's fields as a state value. */
    function Snapshot(): State
      reads this
    {
      State(sp, spSave, cells, cur, input, output, waiting)
    }

    /** `init`: install the slot array and start at cell 0, which holds 0. */
    constructor (commands: seq<Slot>, input: seq<int>)
      ensures this.commands == commands && Snapshot() == Initial(input)
    {
      this.commands := commands;
      sp, spSave := 0, 0;
      cells := map[0 := 0];
      cur := 0;
      this.input := input;
      output := [];
      waiting := false;
    }

    /** `get_char`: read into the current cell and resume after the read slot, or stop and wait. */
    method GetChar()
      requires cur in cells
      modifies this
      ensures Snapshot() == ReadChar(commands, old(Snapshot()))
    {
      if input != [] {
        cells := cells[cur := input[0]];
        input := input[1..];
        sp := spSave + 1;
        waiting := false;
      } else {
        sp := |commands|;
        waiting := true;
      }
    }

    /** `put_char`: print the current cell and move on. */
    method PutChar()
      requires cur in cells
      modifies this
      ensures Snapshot() == Exec(commands, Slot.PutChar, old(Snapshot()))
    {
      output := output + [Char(cells[cur])];
      sp := sp + 1;
    }

    /** `seg_fault`: print the fault line and stop. */
    method SegFault()
      modifies this
      ensures Snapshot() == Fault(commands, old(Snapshot()))
    {
      output := output + [Output.SegFault];
      sp := |commands|;
    }

    /** Run one slot's closure. */
    method Apply(slot: Slot)
      requires cur in cells
      modifies this
      ensures Snapshot() == Exec(commands, slot, old(Snapshot()))
    {
      match slot {
        case AddSlot(d) =>
          cells := cells[cur := cells[cur] + d];
          sp := sp + 1;
        case ShiftSlot(d) =>
          if cur + d < 0 {
            SegFault();
            return;
          }
          cur := cur + d;
          if cur !in cells {
            cells := cells[cur := 0];
          }
          sp := sp + 1;
        case GetChar =>
          GetChar();
        case PutChar =>
          PutChar();
        case CheckSlot(skip) =>
          if cells[cur] == 0 {
            sp := sp + skip;
          } else {
            sp := sp + 1;
          }
        case JumpSlot(back) =>
          sp := sp - back;
      }
    }

    /** `process_command`: save `SP` and run the slot it points at, while `SP` is inside the array. */
    method ProcessCommand(fuel: nat)
      requires WellJumped(commands) && Valid(commands, Snapshot())
      modifies this
      ensures Snapshot() == Run(commands, old(Snapshot()), fuel)
    {
      var n := fuel;
      while sp < |commands| && n > 0
        invariant Valid(commands, Snapshot())
        invariant Run(commands, old(Snapshot()), fuel) == Run(commands, Snapshot(), n)
        decreases n
      {
        ghost var st := Snapshot();
        StepKeepsValid(commands, st);
        spSave := sp;
        assert Snapshot() == st.(spSave := st.sp);
        Apply(commands[sp]);
        assert Snapshot() == Step(commands, st);
        assert Run(commands, st, n) == Run(commands, Snapshot(), n - 1);
        n := n - 1;
      }
    }

    /**
     * The timer callback scheduled by a read that found no input: try the
     * read again and, when it succeeds, carry on running slots.
     */
    method Retry(fuel: nat)
      requires WellJumped(commands) && Valid(commands, Snapshot()) && waiting
      modifies this
      ensures var resumed := ReadChar(commands, old(Snapshot()));
        Snapshot() == if resumed.waiting then resumed else Run(commands, resumed, fuel)
    {
      GetChar();
      if !waiting {
        ProcessCommand(fuel);
      }
    }
  }

  /*
   * What the runtime promises.
   */

  /** A slot of a well-jumped array keeps the runtime's state valid. */
  lemma StepKeepsValid(commands: seq<Slot>, st: State)
    requires WellJumped(commands) && Valid(commands, st) && st.sp < |commands|
    ensures Valid(commands, Step(commands, st))
  {
    var i := st.sp;
    match commands[i]
    case CheckSlot(skip) =>
    case JumpSlot(back) =>
    case _ =>
  }

  /**
   * A check slot: on a zero cell it skips to just past the back-jump that
   * closes its loop, otherwise it moves on to the loop's first body slot;
   * nothing else changes.
   */
  lemma CheckJumps(commands: seq<Slot>, st: State)
    requires WellJumped(commands) && Valid(commands, st) && st.sp < |commands| && commands[st.sp].CheckSlot?
    ensures var d := commands[st.sp].skip; var st' := Step(commands, st);
      && st'.sp == (if st.cells[st.cur] == 0 then st.sp + d else st.sp + 1)
      && (st.cells[st.cur] == 0 ==> commands[st'.sp - 1] == JumpSlot(d - 1) && st'.sp <= |commands|)
      && st'.cells == st.cells && st'.cur == st.cur && st'.output == st.output && st'.input == st.input
  {
  }

  /**
   * A back-jump slot lands exactly on the check slot of its loop, and
   * that check's skip would land just past this back-jump.
   */
  lemma BackJumpLands(commands: seq<Slot>, st: State)
    requires WellJumped(commands) && Valid(commands, st) && st.sp < |commands| && commands[st.sp].JumpSlot?
    ensures var st' := Step(commands, st);
      && 0 <= st'.sp && commands[st'.sp].CheckSlot?
      && st'.sp + commands[st'.sp].skip == st.sp + 1
      && st'.cells == st.cells && st'.cur == st.cur && st'.output == st.output && st'.input == st.input
  {
  }

  /*
   * The slots of a compiled program, command by command.  A command is
   * named by its path, so each lemma holds at any loop depth; its slots
   * start at `SlotIndex` and the slot after them is `SlotIndex + Depth`.
   */

  /**
   * The check slot of a loop: a zero cell leads to the first slot after
   * the loop, a nonzero cell to the loop's first body slot.
   */
  lemma CompiledLoopCheck(p: seq<Commands.Command>, path: seq<nat>, st: State)
    requires ValidPath(p, path) && At(p, path).Loop?
    requires Valid(FlattenSeq(p), st) && st.sp == SlotIndex(p, path)
    ensures st.sp < |FlattenSeq(p)|
    ensures Step(FlattenSeq(p), st) ==
      st.(spSave := st.sp, sp := if st.cells[st.cur] == 0 then st.sp + Depth(At(p, path)) else st.sp + 1)
  {
    LoopJumps(p, path);
  }

  /** The back-jump of a loop, its last slot, leads to the loop's own check slot. */
  lemma CompiledLoopBack(p: seq<Commands.Command>, path: seq<nat>, st: State)
    requires ValidPath(p, path) && At(p, path).Loop?
    requires Valid(FlattenSeq(p), st) && st.sp == SlotIndex(p, path) + Depth(At(p, path)) - 1
    ensures 0 <= st.sp < |FlattenSeq(p)|
    ensures Step(FlattenSeq(p), st) == st.(spSave := st.sp, sp := SlotIndex(p, path))
  {
    LoopJumps(p, path);
  }

  /** The slot of an Arithmetic command adds its signed amount to the current cell and moves on. */
  lemma CompiledArithmetic(p: seq<Commands.Command>, path: seq<nat>, st: State)
    requires ValidPath(p, path) && At(p, path).Arithmetic?
    requires Valid(FlattenSeq(p), st) && st.sp == SlotIndex(p, path)
    ensures st.sp < |FlattenSeq(p)|
    ensures Step(FlattenSeq(p), st) ==
      st.(spSave := st.sp, cells := st.cells[st.cur := st.cells[st.cur] + Commands.Delta(At(p, path))], sp := st.sp + 1)
  {
    SlotIs(p, path);
  }

  /**
   * The slot of a Shift command faults, printing the fault line and
   * stopping, exactly when the cursor would go below cell 0; otherwise it
   * moves the cursor, creates an unseen cell as 0 and moves on.
   */
  lemma CompiledShift(p: seq<Commands.Command>, path: seq<nat>, st: State)
    requires ValidPath(p, path) && At(p, path).Shift?
    requires Valid(FlattenSeq(p), st) && st.sp == SlotIndex(p, path)
    ensures st.sp < |FlattenSeq(p)|
    ensures var target := st.cur + Commands.Delta(At(p, path));
      Step(FlattenSeq(p), st) ==
        if target < 0 then st.(spSave := st.sp, output := st.output + [SegFault], sp := |FlattenSeq(p)|)
        else st.(spSave := st.sp, cur := target, cells := if target in st.cells then st.cells else st.cells[target := 0],
                 sp := st.sp + 1)
  {
    SlotIs(p, path);
  }

  /** The slots of input and output commands read into and print the current cell. */
  lemma CompiledIO(p: seq<Commands.Command>, path: seq<nat>, st: State)
    requires ValidPath(p, path) && At(p, path).IO?
    requires Valid(FlattenSeq(p), st) && st.sp == SlotIndex(p, path)
    ensures st.sp < |FlattenSeq(p)|
    ensures At(p, path).io == Commands.Out ==>
      Step(FlattenSeq(p), st) == st.(spSave := st.sp, output := st.output + [Char(st.cells[st.cur])], sp := st.sp + 1)
    ensures At(p, path).io == Commands.In && st.input != [] ==>
      Step(FlattenSeq(p), st) ==
        st.(spSave := st.sp, cells := st.cells[st.cur := st.input[0]], input := st.input[1..], sp := st.sp + 1, waiting := false)
    ensures At(p, path).io == Commands.In && st.input == [] ==>
      Step(FlattenSeq(p), st) == st.(spSave := st.sp, sp := |FlattenSeq(p)|, waiting := true)
  {
    SlotIs(p, path);
  }

  /** A non-loop command, at any depth, is the one slot `SlotOf` at its `SlotIndex`. */
  lemma SlotIs(p: seq<Commands.Command>, path: seq<nat>)
    requires ValidPath(p, path) && !At(p, path).Loop?
    ensures SlotIndex(p, path) < |FlattenSeq(p)| && FlattenSeq(p)[SlotIndex(p, path)] == SlotOf(At(p, path))
  {
    SlotsAt(p, path);
    assert FlattenSeq(p)[SlotIndex(p, path)] == Flatten(At(p, path))[0];
  }

  /**
   * Waiting for input and retrying is the same as a read that had the
   * input all along: the retry resumes just after the read slot.
   */
  lemma RetryResumes(commands: seq<Slot>, st: State, typed: seq<int>)
    requires Valid(commands, st) && st.sp < |commands| && commands[st.sp] == GetChar
    requires st.input == [] && typed != []
    ensures var paused := Step(commands, st);
      && paused.waiting && paused.sp == |commands|
      && ReadChar(commands, paused.(input := typed)) == Step(commands, st.(input := typed))
  {
  }
}
