/** The fragment of the BPF instruction set (RFC 9669) that the generated programs
    use, with a small-step interpreter.

    Pointers are symbolic: a pointer names the object it points into and an offset.
    Reading an uninitialised register, leaving an object, or using an opcode, a
    reserved field or a helper outside the fragment is a fault. Stack memory is kept
    as the set of values stored in it, each with its width; a load must read exactly
    what one earlier store wrote. */
module Bpf {
  import opened Words

  datatype Instruction = Instruction(code: u8, regs: u8, off: i16, imm: i32)

  /** Bitwise or. */
  function Or(a: nat, b: nat): nat {
    if a == 0 then b else if b == 0 then a else (if a % 2 == 1 || b % 2 == 1 then 1 else 0) + 2 * Or(a / 2, b / 2)
  }

  /** Bit by bit, a bit is set exactly when it is in either. */
  lemma OrBits(a: nat, b: nat)
    ensures Or(a, b) % 2 == 1 <==> a % 2 == 1 || b % 2 == 1
    ensures Or(a, b) / 2 == Or(a / 2, b / 2)
  {
  }

  /** Destination in the low nibble, source in the high one (section 3.1). As in an 8-bit
      destination | source << 4, the high nibbles mix when the destination has one. */
  function Register(destination: u8, source: u8): (r: u8)
    ensures destination < 16 && source < 16 ==> r % 16 == destination && r / 16 == source
  {
    if destination < 16 && source < 16 then destination + 16 * source
    else destination % 16 + 16 * (Or(destination / 16, source) % 16)
  }

  /** The low nibble is the destination's; the high one mixes the destination's with the
      source. */
  lemma RegisterNibbles(destination: u8, source: u8)
    ensures Register(destination, source) % 16 == destination % 16
    ensures Register(destination, source) / 16 == Or(destination / 16, source) % 16
  {
    if destination < 16 { assert destination / 16 == 0; }
  }

  function Destination(i: Instruction): nat {
    i.regs % 16
  }

  function Source(i: Instruction): nat {
    i.regs / 16
  }

  datatype Op =
    | MovReg(dst: nat, src: nat)
    | MovImm(dst: nat, imm: i32)
    | AddImm(dst: nat, imm: i32)
    | AddReg(dst: nat, src: nat)
    | SubReg(dst: nat, src: nat)
    | Load(size: nat, dst: nat, src: nat, off: i16)
    | StoreReg(dst: nat, src: nat, off: i16)
    | StoreImm(dst: nat, off: i16, imm: i32)
    | AtomicAdd(dst: nat, src: nat, off: i16)
    | LoadMap(dst: nat, fd: i32)
    | Jump(off: i16)
    | JumpEqImm(dst: nat, imm: i32, off: i16)
    | JumpLtImm(dst: nat, imm: i32, off: i16)
    | JumpLeReg(dst: nat, src: nat, off: i16)
    | Call(helper: i32)
    | Exit
    | Unsupported

  /** Sections 4.1 (arithmetic), 4.3 (jumps), 5.1, 5.3 and 5.4 (loads, stores and
      64-bit immediates). Reserved fields must be zero. */
  function Decode(program: seq<Instruction>, pc: nat): Op
    requires pc < |program|
  {
    var i := program[pc];
    var d, s := Destination(i), Source(i);
    if i.code == 0xbf then (if i.off == 0 && i.imm == 0 then MovReg(d, s) else Unsupported)
    else if i.code == 0xb7 then (if i.off == 0 && s == 0 then MovImm(d, i.imm) else Unsupported)
    else if i.code == 0x07 then (if i.off == 0 && s == 0 then AddImm(d, i.imm) else Unsupported)
    else if i.code == 0x0f then (if i.off == 0 && i.imm == 0 then AddReg(d, s) else Unsupported)
    else if i.code == 0x1f then (if i.off == 0 && i.imm == 0 then SubReg(d, s) else Unsupported)
    else if i.code == 0x71 then (if i.imm == 0 then Load(1, d, s, i.off) else Unsupported)
    else if i.code == 0x69 then (if i.imm == 0 then Load(2, d, s, i.off) else Unsupported)
    else if i.code == 0x61 then (if i.imm == 0 then Load(4, d, s, i.off) else Unsupported)
    else if i.code == 0x79 then (if i.imm == 0 then Load(8, d, s, i.off) else Unsupported)
    else if i.code == 0x7b then (if i.imm == 0 then StoreReg(d, s, i.off) else Unsupported)
    else if i.code == 0x62 then (if s == 0 then StoreImm(d, i.off, i.imm) else Unsupported)
    else if i.code == 0xdb then (if i.imm == 0 then AtomicAdd(d, s, i.off) else Unsupported)
    else if i.code == 0x18 then
      (if s == 1 && i.off == 0 && pc + 1 < |program| && program[pc + 1] == Instruction(0, 0, 0, 0)
       then LoadMap(d, i.imm) else Unsupported)
    else if i.code == 0x05 then (if d == 0 && s == 0 && i.imm == 0 then Jump(i.off) else Unsupported)
    else if i.code == 0x15 then (if s == 0 then JumpEqImm(d, i.imm, i.off) else Unsupported)
    else if i.code == 0xa5 then (if s == 0 then JumpLtImm(d, i.imm, i.off) else Unsupported)
    else if i.code == 0xbd then (if i.imm == 0 then JumpLeReg(d, s, i.off) else Unsupported)
    else if i.code == 0x85 then (if i.regs == 0 && i.off == 0 then Call(i.imm) else Unsupported)
    else if i.code == 0x95 then (if i.regs == 0 && i.off == 0 && i.imm == 0 then Exit else Unsupported)
    else Unsupported
  }

  /** The 16-byte correlation key: the two 8-byte halves in stack order. */
  datatype Key = Key(dev: u64, sector: u64)

  type Cell = seq<u64>

  datatype Value =
    | Uninit
    | Scalar(n: u64)
    | ContextPtr(offset: int)
    | StackPtr(offset: int)
    | MapRef(fd: int)
    | EntryPtr(key: Key, offset: int)
    | CellPtr(index: nat, offset: int)

  datatype Slot = Slot(value: u64, width: nat)

  /** Kernel memory a program can reach: one hash map of timestamps, and the
      current CPU's cells of one array map whose values are 64-bit words. */
  datatype Kernel = Kernel(hashFd: int, entries: map<Key, u64>, arrayFd: int, cells: seq<Cell>)

  datatype ByteOrder = Little | Big

  /** What a run finds on its host. */
  datatype Env = Env(order: ByteOrder, context: seq<u8>, now: u64)

  datatype State = State(pc: nat, regs: seq<Value>, stack: map<int, Slot>, kernel: Kernel)
  {
    ghost predicate Valid() {
      |regs| == 11
    }
  }

  datatype Outcome = Running(state: State) | Halted(r0: u64, kernel: Kernel) | Fault

  /** Section 4.2: at entry r1 holds the context and r10 the frame pointer. */
  function Start(kernel: Kernel): (s: State)
    ensures s.Valid()
  {
    State(0, [Uninit, ContextPtr(0), Uninit, Uninit, Uninit, Uninit, Uninit, Uninit, Uninit, Uninit, StackPtr(0)],
          map[], kernel)
  }

  function LittleEndian(bytes: seq<u8>): nat {
    if bytes == [] then 0 else bytes[0] + 256 * LittleEndian(bytes[1..])
  }

  function Reversed(bytes: seq<u8>): (r: seq<u8>)
    ensures |r| == |bytes|
  {
    if bytes == [] then [] else Reversed(bytes[1..]) + [bytes[0]]
  }

  /** The number that bytes hold in the byte order of the host. */
  function Native(order: ByteOrder, bytes: seq<u8>): nat {
    LittleEndian(if order == Big then Reversed(bytes) else bytes)
  }

  /** In little-endian order the first byte counts least, in big-endian order the last. */
  lemma NativeDigits(bytes: seq<u8>, b: u8)
    ensures Native(Little, [b] + bytes) == b + 256 * Native(Little, bytes)
    ensures Native(Big, bytes + [b]) == b + 256 * Native(Big, bytes)
  {
    assert ([b] + bytes)[1..] == bytes;
    ReversedLast(bytes, b);
    assert ([b] + Reversed(bytes))[1..] == Reversed(bytes);
  }

  lemma {:induction false} ReversedLast(bytes: seq<u8>, b: u8)
    ensures Reversed(bytes + [b]) == [b] + Reversed(bytes)
  {
    if bytes == [] {
      assert bytes + [b] == [b] && [b][1..] == [];
    } else {
      assert (bytes + [b])[1..] == bytes[1..] + [b];
      ReversedLast(bytes[1..], b);
    }
  }

  /** Numbers of the same width are equal only when their bytes are. */
  lemma {:induction false} LittleEndianInjective(a: seq<u8>, b: seq<u8>)
    requires |a| == |b| && LittleEndian(a) == LittleEndian(b)
    ensures a == b
  {
    if a == [] {
    } else {
      assert LittleEndian(a) % 256 == a[0] && LittleEndian(b) % 256 == b[0];
      LittleEndianInjective(a[1..], b[1..]);
      assert a == [a[0]] + a[1..] && b == [b[0]] + b[1..];
    }
  }

  lemma {:induction false} ReversedInjective(a: seq<u8>, b: seq<u8>)
    requires Reversed(a) == Reversed(b)
    ensures a == b
  {
    if a == [] {
    } else {
      var x, y := Reversed(a), Reversed(b);
      assert x[..|x| - 1] == Reversed(a[1..]) && y[..|y| - 1] == Reversed(b[1..]);
      assert x[|x| - 1] == a[0] && y[|y| - 1] == b[0];
      ReversedInjective(a[1..], b[1..]);
      assert a == [a[0]] + a[1..] && b == [b[0]] + b[1..];
    }
  }

  lemma NativeInjective(order: ByteOrder, a: seq<u8>, b: seq<u8>)
    requires |a| == |b| && Native(order, a) == Native(order, b)
    ensures a == b
  {
    if order == Big {
      LittleEndianInjective(Reversed(a), Reversed(b));
      ReversedInjective(a, b);
    } else {
      LittleEndianInjective(a, b);
    }
  }

  function LoadContext(order: ByteOrder, context: seq<u8>, offset: int, size: nat): Option<u64> {
    if 0 <= offset && offset + size <= |context| && Native(order, context[offset..offset + size]) < TWO_64
    then Some(Native(order, context[offset..offset + size]))
    else None
  }

  function LoadSlot(stack: map<int, Slot>, offset: int, size: nat): Option<u64> {
    if offset in stack && stack[offset].width == size then Some(stack[offset].value) else None
  }

  /** A store forgets every earlier value it overlaps. */
  function StoreSlot(stack: map<int, Slot>, offset: int, slot: Slot): map<int, Slot> {
    (map o | o in stack && (o + stack[o].width <= offset || offset + slot.width <= o) :: stack[o])[offset := slot]
  }

  /** After a store, a load of the same place and width gives the value; one that does not
      overlap gives what it gave before; any other gives nothing. */
  lemma StoreThenLoad(stack: map<int, Slot>, offset: int, slot: Slot, at: int, size: nat)
    requires slot.width > 0 && size > 0
    ensures at == offset && size == slot.width ==> LoadSlot(StoreSlot(stack, offset, slot), at, size) == Some(slot.value)
    ensures at + size <= offset || offset + slot.width <= at ==>
              LoadSlot(StoreSlot(stack, offset, slot), at, size) == LoadSlot(stack, at, size)
    ensures at < offset + slot.width && offset < at + size && (at != offset || size != slot.width) ==>
              LoadSlot(StoreSlot(stack, offset, slot), at, size) == None
  {
  }

  function LoadValue(env: Env, s: State, pointer: Value, off: int, size: nat): Option<u64> {
    match pointer
    case ContextPtr(o) => LoadContext(env.order, env.context, o + off, size)
    case StackPtr(o) => LoadSlot(s.stack, o + off, size)
    case EntryPtr(key, o) =>
      if o + off == 0 && size == 8 && key in s.kernel.entries then Some(s.kernel.entries[key]) else None
    case CellPtr(index, o) =>
      if size == 8 && index < |s.kernel.cells| && 0 <= o + off && (o + off) % 8 == 0
         && (o + off) / 8 < |s.kernel.cells[index]|
      then Some(s.kernel.cells[index][(o + off) / 8]) else None
    case _ => None
  }

  function StoreValue(s: State, pointer: Value, off: int, size: nat, value: u64): Option<State> {
    match pointer
    case StackPtr(o) =>
      if -512 <= o + off && o + off + size <= 0
      then Some(s.(stack := StoreSlot(s.stack, o + off, Slot(value, size)))) else None
    case CellPtr(index, o) =>
      if size == 8 && index < |s.kernel.cells| && 0 <= o + off && (o + off) % 8 == 0
         && (o + off) / 8 < |s.kernel.cells[index]|
      then
        var cell: Cell := s.kernel.cells[index][(o + off) / 8 := value];
        Some(s.(kernel := s.kernel.(cells := s.kernel.cells[index := cell])))
      else None
    case _ => None
  }

  function AddTo(v: Value, n: int): Option<Value> {
    match v
    case Scalar(x) => Some(Scalar(Wrap(x + n)))
    case StackPtr(o) => Some(StackPtr(o + n))
    case CellPtr(i, o) => Some(CellPtr(i, o + n))
    case _ => None
  }

  function Fall(s: State, dst: nat, v: Option<Value>): Outcome
    requires s.Valid()
  {
    if dst < 10 && v.Some? && !v.value.Uninit? then Running(s.(pc := s.pc + 1, regs := s.regs[dst := v.value]))
    else Fault
  }

  function Branch(s: State, taken: bool, off: int): Outcome {
    var target := s.pc + 1 + (if taken then off else 0);
    if target < 0 then Fault else Running(s.(pc := target))
  }

  predicate IsBranch(op: Op) {
    op.Jump? || op.JumpEqImm? || op.JumpLtImm? || op.JumpLeReg?
  }

  function Reg(s: State, n: nat): Value
    requires s.Valid()
  {
    if n < 11 then s.regs[n] else Uninit
  }

  /** Whether a branch is taken; None when its operands cannot be compared. A
      pointer returned by a successful lookup is not the null pointer. */
  function Taken(op: Op, s: State): Option<bool>
    requires s.Valid() && IsBranch(op)
  {
    match op
    case Jump(_) => Some(true)
    case JumpEqImm(d, imm, _) =>
      var v := Reg(s, d);
      if v.Scalar? then Some(v.n == Wrap(imm))
      else if (v.EntryPtr? || v.CellPtr?) && imm == 0 then Some(false) else None
    case JumpLtImm(d, imm, _) =>
      var v := Reg(s, d);
      if v.Scalar? then Some(v.n < Wrap(imm)) else None
    case JumpLeReg(d, src, _) =>
      var v, w := Reg(s, d), Reg(s, src);
      if v.Scalar? && w.Scalar? then Some(v.n <= w.n) else None
    case _ => None
  }

  function KeyAt(s: State, pointer: Value): Option<Key> {
    if pointer.StackPtr? then
      var o := pointer.offset;
      if LoadSlot(s.stack, o, 8).Some? && LoadSlot(s.stack, o + 8, 8).Some?
      then Some(Key(LoadSlot(s.stack, o, 8).value, LoadSlot(s.stack, o + 8, 8).value)) else None
    else None
  }

  function IndexAt(s: State, pointer: Value): Option<u64> {
    if pointer.StackPtr? then LoadSlot(s.stack, pointer.offset, 4) else None
  }

  /** A helper returns in r0 and leaves r1 to r5 unreadable. */
  function Return(s: State, kernel: Kernel, r0: Value): Outcome
    requires s.Valid()
  {
    var regs := s.regs[0 := r0][1 := Uninit][2 := Uninit][3 := Uninit][4 := Uninit][5 := Uninit];
    Running(State(s.pc + 1, regs, s.stack, kernel))
  }

  /** The kernel's helpers by their numbers: 1 looks up a map entry, 2 updates one, 3 deletes
      one, and 5 reads the clock. */
  function CallHelper(env: Env, s: State, helper: int): Outcome
    requires s.Valid()
  {
    var k := s.kernel;
    if helper == 5 then Return(s, k, Scalar(env.now))
    else if !s.regs[1].MapRef? then Fault
    else if helper == 1 && s.regs[1].fd == k.hashFd && KeyAt(s, s.regs[2]).Some? then
      var key := KeyAt(s, s.regs[2]).value;
      Return(s, k, if key in k.entries then EntryPtr(key, 0) else Scalar(0))
    else if helper == 1 && s.regs[1].fd == k.arrayFd && IndexAt(s, s.regs[2]).Some? then
      var index := IndexAt(s, s.regs[2]).value;
      Return(s, k, if index < |k.cells| then CellPtr(index, 0) else Scalar(0))
    else if helper == 2 && s.regs[1].fd == k.hashFd && KeyAt(s, s.regs[2]).Some?
            && s.regs[3].StackPtr? && LoadSlot(s.stack, s.regs[3].offset, 8).Some? && s.regs[4] == Scalar(0) then
      var key := KeyAt(s, s.regs[2]).value;
      Return(s, k.(entries := k.entries[key := LoadSlot(s.stack, s.regs[3].offset, 8).value]), Scalar(0))
    else if helper == 3 && s.regs[1].fd == k.hashFd && KeyAt(s, s.regs[2]).Some? then
      var key := KeyAt(s, s.regs[2]).value;
      Return(s, k.(entries := k.entries - {key}), Scalar(if key in k.entries then 0 else TWO_64 - 2))
    else Fault
  }

  function Execute(op: Op, env: Env, s: State): Outcome
    requires s.Valid()
  {
    match op
    case MovReg(d, src) => Fall(s, d, Some(Reg(s, src)))
    case MovImm(d, imm) => Fall(s, d, Some(Scalar(Wrap(imm))))
    case AddImm(d, imm) => Fall(s, d, AddTo(Reg(s, d), imm))
    case AddReg(d, src) => if Reg(s, src).Scalar? then Fall(s, d, AddTo(Reg(s, d), Reg(s, src).n)) else Fault
    case SubReg(d, src) =>
      if Reg(s, d).Scalar? && Reg(s, src).Scalar? then Fall(s, d, Some(Scalar(Wrap(Reg(s, d).n - Reg(s, src).n)))) else Fault
    case Load(size, d, src, off) =>
      var v := LoadValue(env, s, Reg(s, src), off, size);
      if v.Some? then Fall(s, d, Some(Scalar(v.value))) else Fault
    case StoreReg(d, src, off) =>
      if !Reg(s, src).Scalar? then Fault else
      var t := StoreValue(s, Reg(s, d), off, 8, Reg(s, src).n);
      if t.Some? then Running(t.value.(pc := s.pc + 1)) else Fault
    case StoreImm(d, off, imm) =>
      var t := StoreValue(s, Reg(s, d), off, 4, imm % 0x1_0000_0000);
      if t.Some? then Running(t.value.(pc := s.pc + 1)) else Fault
    case AtomicAdd(d, src, off) =>
      var v := LoadValue(env, s, Reg(s, d), off, 8);
      if !Reg(s, src).Scalar? || v.None? then Fault else
      var t := StoreValue(s, Reg(s, d), off, 8, Wrap(v.value + Reg(s, src).n));
      if t.Some? then Running(t.value.(pc := s.pc + 1)) else Fault
    case LoadMap(d, fd) => Fall(s.(pc := s.pc + 1), d, Some(MapRef(fd)))
    case Call(helper) => CallHelper(env, s, helper)
    case Exit => if s.regs[0].Scalar? then Halted(s.regs[0].n, s.kernel) else Fault
    case Unsupported => Fault
    case _ =>
      var t := Taken(op, s);
      if t.Some? then Branch(s, t.value, op.off) else Fault
  }

  function Step(program: seq<Instruction>, env: Env, s: State): Outcome {
    if |s.regs| == 11 && s.pc < |program| then Execute(Decode(program, s.pc), env, s) else Fault
  }

  /** One step of a machine, from any state. */
  type Stepper = State -> Outcome

  /** A machine runs until it stops or its fuel is spent. */
  function Iterate(step: Stepper, s: State, fuel: nat): Outcome
    decreases fuel
  {
    if fuel == 0 then Running(s) else
    var o := step(s);
    if o.Running? then Iterate(step, o.state, fuel - 1) else o
  }

  lemma {:induction false} SameSteps(f: Stepper, g: Stepper, s: State, fuel: nat)
    requires forall t: State :: f(t) == g(t)
    ensures Iterate(f, s, fuel) == Iterate(g, s, fuel)
    decreases fuel
  {
    if fuel == 0 || !f(s).Running? {
    } else {
      SameSteps(f, g, f(s).state, fuel - 1);
    }
  }

  function Run(program: seq<Instruction>, env: Env, s: State, fuel: nat): Outcome {
    Iterate(t => Step(program, env, t), s, fuel)
  }
}
