/** What running the bytecode of the two latency programs does, for every context,
    kernel state and clock value. */
module LatencyExecution {
  import opened Words
  import opened Bpf
  import opened Assembler
  import opened LatencyPrograms

  // ----- the effects the programs are for -----

  const CELL_WORDS: nat := 13

  /** The histogram bucket of a latency. */
  function BucketOf(latency: u64): (i: nat)
    ensures i < BUCKET_COUNT
  {
    FirstAbove(latency, 0)
  }

  function FirstAbove(latency: u64, from: nat): (i: nat)
    requires from <= 9
    ensures from <= i <= 9
    decreases 9 - from, latency
  {
    if from == 9 || latency < UPPER_NS[from] then from else FirstAbove(latency, from + 1)
  }

  /** Bucket i holds the latencies from the previous bound, inclusive, to its own,
      exclusive; the last one has no upper bound. */
  predicate InBucket(latency: u64, i: nat)
    requires i < BUCKET_COUNT
  {
    (i == 0 || UPPER_NS[i - 1] <= latency) && (i == 9 || latency < UPPER_NS[i])
  }

  lemma {:induction false} FirstAboveInBucket(latency: u64, from: nat)
    requires from <= 9 && (from == 0 || UPPER_NS[from - 1] <= latency)
    ensures InBucket(latency, FirstAbove(latency, from))
    decreases 9 - from
  {
    if from == 9 || latency < UPPER_NS[from] {
    } else {
      FirstAboveInBucket(latency, from + 1);
    }
  }

  lemma {:induction false} BoundsIncrease(i: nat, j: nat)
    requires i <= j < 9
    ensures UPPER_NS[i] <= UPPER_NS[j]
    decreases j
  {
    if i == j {
    } else {
      BoundsIncrease(i, j - 1);
    }
  }

  /** Exactly one bucket contains a latency. */
  lemma OneBucket(latency: u64, i: nat)
    requires i < BUCKET_COUNT
    ensures InBucket(latency, i) <==> i == BucketOf(latency)
  {
    var b := BucketOf(latency);
    FirstAboveInBucket(latency, 0);
    if i < b { BoundsIncrease(i, b - 1); }
    if b < i { BoundsIncrease(b, i - 1); }
  }

  /** One more completed request in a statistics cell: count, total, maximum and the
      ten buckets. */
  function Record(cell: Cell, latency: u64): (r: Cell)
    requires |cell| == CELL_WORDS
    ensures |r| == CELL_WORDS
  {
    var b := 3 + BucketOf(latency);
    cell[0 := Wrap(cell[0] as int + 1)][1 := Wrap(cell[1] as int + latency)][2 := Max(cell[2], latency) as u64]
      [b := Wrap(cell[b] as int + 1)]
  }

  function IssueEffect(k: Kernel, key: Key, now: u64): Kernel {
    k.(entries := k.entries[key := now])
  }

  function CompleteEffect(k: Kernel, key: Key, now: u64): Kernel
    requires forall i :: 0 <= i < |k.cells| ==> |k.cells[i]| == CELL_WORDS
  {
    if key !in k.entries then k else
    var latency: u64 := Wrap(now - k.entries[key]);
    var k := k.(entries := k.entries - {key});
    if k.cells == [] then k else k.(cells := k.cells[0 := Record(k.cells[0], latency)])
  }

  /** A key field lies inside the tracepoint record. */
  predicate Readable(context: seq<u8>, field: TracepointField) {
    SupportedSize(field.size) && field.offset <= 32767 && field.offset + field.size <= |context|
  }

  function FieldOf(order: ByteOrder, context: seq<u8>, field: TracepointField): u64
    requires Readable(context, field)
  {
    FieldIsLoaded(order, context, field);
    LoadContext(order, context, field.offset, field.size).value
  }

  function KeyOf(order: ByteOrder, context: seq<u8>, fields: KeyFields): Key
    requires Readable(context, fields.dev) && Readable(context, fields.sector)
  {
    Key(FieldOf(order, context, fields.dev), FieldOf(order, context, fields.sector))
  }

  function Pow256(n: nat): nat {
    if n == 0 then 1 else 256 * Pow256(n - 1)
  }

  lemma {:induction false} LittleEndianBound(bytes: seq<u8>)
    ensures LittleEndian(bytes) < Pow256(|bytes|)
  {
    if bytes == [] {
    } else {
      LittleEndianBound(bytes[1..]);
    }
  }

  lemma NativeBound(order: ByteOrder, bytes: seq<u8>)
    ensures Native(order, bytes) < Pow256(|bytes|)
  {
    LittleEndianBound(if order == Big then Reversed(bytes) else bytes);
  }

  lemma Pow256Is64(n: nat)
    requires n <= 8
    ensures Pow256(n) <= TWO_64
  {
    assert Pow256(4) == 0x1_0000_0000 by {
      assert Pow256(2) == 0x1_0000;
    }
    assert Pow256(6) == 0x1_0000_0000_0000;
    assert Pow256(8) == TWO_64;
    if n == 1 || n == 3 || n == 5 || n == 7 {
      assert Pow256(n + 1) == 256 * Pow256(n);
    }
  }

  lemma FieldIsLoaded(order: ByteOrder, context: seq<u8>, field: TracepointField)
    requires Readable(context, field)
    ensures LoadContext(order, context, field.offset, field.size).Some?
  {
    NativeBound(order, context[field.offset..field.offset + field.size]);
    Pow256Is64(field.size);
  }

  /** The bytes of a key field. */
  function FieldBytes(context: seq<u8>, field: TracepointField): seq<u8>
    requires Readable(context, field)
  {
    context[field.offset..field.offset + field.size]
  }

  /** Two records give the same key exactly when their bytes agree in both fields. */
  lemma SameKey(order: ByteOrder, a: seq<u8>, b: seq<u8>, fields: KeyFields)
    requires Readable(a, fields.dev) && Readable(a, fields.sector) && Readable(b, fields.dev) && Readable(b, fields.sector)
    ensures KeyOf(order, a, fields) == KeyOf(order, b, fields) <==>
              && FieldBytes(a, fields.dev) == FieldBytes(b, fields.dev)
              && FieldBytes(a, fields.sector) == FieldBytes(b, fields.sector)
    ensures KeyOf(order, a, fields).dev == Native(order, FieldBytes(a, fields.dev))
    ensures KeyOf(order, a, fields).sector == Native(order, FieldBytes(a, fields.sector))
  {
    FieldIsLoaded(order, a, fields.dev);
    FieldIsLoaded(order, a, fields.sector);
    FieldIsLoaded(order, b, fields.dev);
    FieldIsLoaded(order, b, fields.sector);
    if FieldOf(order, a, fields.dev) == FieldOf(order, b, fields.dev) {
      NativeInjective(order, FieldBytes(a, fields.dev), FieldBytes(b, fields.dev));
    }
    if FieldOf(order, a, fields.sector) == FieldOf(order, b, fields.sector) {
      NativeInjective(order, FieldBytes(a, fields.sector), FieldBytes(b, fields.sector));
    }
  }

  // ----- executing a block of straight-line code -----

  predicate Ready(a: Assembly) {
    WellFormed(a) && AllResolvable(a)
  }

  /** A block without jumps stands at address n. */
  predicate Stands(a: Assembly, n: nat, block: seq<Instruction>) {
    && n + |block| <= |a.instructions|
    && (forall i :: 0 <= i < |block| ==> a.instructions[n + i] == block[i])
    && (forall k :: 0 <= k < |a.fixups| ==> !(n <= a.fixups[k].index < n + |block|))
  }

  /** An execution of a program from the start. */
  datatype Execution = Execution(program: Assembly, env: Env, kernel: Kernel)

  /** The execution is in state s after m steps. */
  ghost predicate ReachesIn(x: Execution, s: State, m: nat) {
    forall fuel: nat {:trigger LabelledRun(x.program, x.env, Start(x.kernel), fuel)} :: fuel >= m ==>
      LabelledRun(x.program, x.env, Start(x.kernel), fuel) == LabelledRun(x.program, x.env, s, fuel - m)
  }

  /** The execution comes to state s; as every step moves ahead, in at most s.pc steps. */
  ghost predicate Reaches(x: Execution, s: State) {
    s.Valid() && exists m: nat :: m <= s.pc && ReachesIn(x, s, m)
  }

  lemma Extend(x: Execution, s: State, t: State)
    requires Reaches(x, s) && LabelledStep(x.program, x.env, s) == Running(t) && t.Valid() && s.pc < t.pc
    ensures Reaches(x, t)
  {
    var m: nat :| m <= s.pc && ReachesIn(x, s, m);
    forall fuel: nat | fuel >= m + 1
      ensures LabelledRun(x.program, x.env, Start(x.kernel), fuel) == LabelledRun(x.program, x.env, t, fuel - (m + 1))
    {
      assert LabelledRun(x.program, x.env, s, fuel - m) == LabelledRun(x.program, x.env, t, fuel - m - 1);
    }
    assert ReachesIn(x, t, m + 1);
  }

  lemma AtStart(x: Execution)
    ensures Reaches(x, Start(x.kernel))
  {
    assert ReachesIn(x, Start(x.kernel), 0);
  }

  /** No jump call is recorded inside a block. */
  lemma NotRecorded(a: Assembly, n: nat, block: seq<Instruction>, pc: nat)
    requires Stands(a, n, block) && n <= pc < n + |block|
    ensures !Recorded(a, pc) && Placed(a, pc) == block[pc - n]
  {
    var i := pc - n;
    assert a.instructions[n + i] == block[i];
    NoName(a.fixups, pc);
  }

  /** The labelled program steps through a block as the block alone says. */
  lemma BlockStep(a: Assembly, env: Env, s: State, n: nat, block: seq<Instruction>)
    requires s.Valid() && Stands(a, n, block) && n <= s.pc < n + |block|
    requires Decode(block, s.pc - n).LoadMap? || block[s.pc - n].code != 0x18
    ensures LabelledStep(a, env, s) == Execute(Decode(block, s.pc - n), env, s)
  {
    var i := s.pc - n;
    NotRecorded(a, n, block, s.pc);
    if i + 1 < |block| { NotRecorded(a, n, block, s.pc + 1); }
    AroundBlock(a, n, block, i);
    SameFirst(Around(a, s.pc), 0, block, i);
  }

  lemma AroundBlock(a: Assembly, n: nat, block: seq<Instruction>, i: nat)
    requires n + |block| <= |a.instructions| && i < |block| && Placed(a, n + i) == block[i]
    requires i + 1 < |block| ==> Placed(a, n + i + 1) == block[i + 1]
    ensures var p := Around(a, n + i); p[0] == block[i] && (i + 1 < |block| ==> |p| > 1 && p[1] == block[i + 1])
  {
  }

  lemma StaysValid(op: Op, env: Env, s: State)
    requires s.Valid() && Execute(op, env, s).Running?
    ensures Execute(op, env, s).state.Valid()
  {
  }

  /** One instruction of a block. */
  lemma Go(x: Execution, s: State, n: nat, block: seq<Instruction>) returns (t: State)
    requires Reaches(x, s) && Stands(x.program, n, block) && n <= s.pc < n + |block|
    requires Decode(block, s.pc - n).LoadMap? || block[s.pc - n].code != 0x18
    requires Execute(Decode(block, s.pc - n), x.env, s).Running?
    requires s.pc < Execute(Decode(block, s.pc - n), x.env, s).state.pc
    ensures t.Valid() && Execute(Decode(block, s.pc - n), x.env, s) == Running(t)
    ensures Reaches(x, t)
  {
    BlockStep(x.program, x.env, s, n, block);
    StaysValid(Decode(block, s.pc - n), x.env, s);
    t := Execute(Decode(block, s.pc - n), x.env, s).state;
    Extend(x, s, t);
  }

  /** Decoding looks at one instruction, or at two for a 64-bit immediate. */
  lemma SameFirst(p: seq<Instruction>, i: nat, q: seq<Instruction>, j: nat)
    requires i < |p| && j < |q| && p[i] == q[j]
    requires j + 1 < |q| ==> i + 1 < |p| && p[i + 1] == q[j + 1]
    requires Decode(q, j).LoadMap? || q[j].code != 0x18
    ensures Decode(p, i) == Decode(q, j)
  {
  }

  lemma GoMov(x: Execution, s: State, n: nat, b: seq<Instruction>, d: Nibble, src: Nibble)
    returns (t: State)
    requires Reaches(x, s) && Stands(x.program, n, b) && n <= s.pc < n + |b|
    requires b[s.pc - n] == I(0xbf, d, src, 0, 0) && d < 10 && src < 11 && !s.regs[src].Uninit?
    ensures t == s.(pc := s.pc + 1, regs := s.regs[d := s.regs[src]])
    ensures Reaches(x, t)
  {
    t := Go(x, s, n, b);
  }

  lemma GoMovImm(x: Execution, s: State, n: nat, b: seq<Instruction>, d: Nibble, imm: i32)
    returns (t: State)
    requires Reaches(x, s) && Stands(x.program, n, b) && n <= s.pc < n + |b|
    requires b[s.pc - n] == I(0xb7, d, 0, 0, imm) && d < 10
    ensures t == s.(pc := s.pc + 1, regs := s.regs[d := Scalar(Wrap(imm))])
    ensures Reaches(x, t)
  {
    t := Go(x, s, n, b);
  }

  /** Adds a constant or, when code is 0x0f, a register. */
  lemma GoAdd(x: Execution, s: State, n: nat, b: seq<Instruction>,
              code: u8, d: Nibble, src: Nibble, imm: i32)
    returns (t: State)
    requires Reaches(x, s) && Stands(x.program, n, b) && n <= s.pc < n + |b| && src < 11
    requires b[s.pc - n] == I(code, d, src, 0, imm) && d < 10 && AddTo(s.regs[d], imm).Some?
    requires (code == 0x07 && src == 0) || (code == 0x0f && imm == 0 && s.regs[src].Scalar? && s.regs[d].Scalar?)
    ensures t == s.(pc := s.pc + 1,
                    regs := s.regs[d := AddTo(s.regs[d], if code == 0x07 then imm else s.regs[src].n).value])
    ensures Reaches(x, t)
  {
    t := Go(x, s, n, b);
  }

  lemma GoSub(x: Execution, s: State, n: nat, b: seq<Instruction>, d: Nibble, src: Nibble)
    returns (t: State)
    requires Reaches(x, s) && Stands(x.program, n, b) && n <= s.pc < n + |b|
    requires b[s.pc - n] == I(0x1f, d, src, 0, 0) && d < 10 && src < 11 && s.regs[d].Scalar? && s.regs[src].Scalar?
    ensures t == s.(pc := s.pc + 1, regs := s.regs[d := Scalar(Wrap(s.regs[d].n - s.regs[src].n))])
    ensures Reaches(x, t)
  {
    t := Go(x, s, n, b);
  }

  lemma GoLoad(x: Execution, s: State, n: nat, b: seq<Instruction>,
               size: u64, d: Nibble, src: Nibble, off: i16)
    returns (t: State)
    requires Reaches(x, s) && Stands(x.program, n, b) && n <= s.pc < n + |b|
    requires SupportedSize(size) && b[s.pc - n] == I(ContextLoadCode(size).value, d, src, off, 0)
    requires d < 10 && src < 11 && LoadValue(x.env, s, s.regs[src], off, size).Some?
    ensures t == s.(pc := s.pc + 1, regs := s.regs[d := Scalar(LoadValue(x.env, s, s.regs[src], off, size).value)])
    ensures Reaches(x, t)
  {
    t := Go(x, s, n, b);
  }

  lemma GoStore(x: Execution, s: State, n: nat, b: seq<Instruction>,
                d: Nibble, src: Nibble, off: i16)
    returns (t: State)
    requires Reaches(x, s) && Stands(x.program, n, b) && n <= s.pc < n + |b|
    requires b[s.pc - n] == I(0x7b, d, src, off, 0)
    requires d < 11 && src < 11 && s.regs[src].Scalar? && StoreValue(s, s.regs[d], off, 8, s.regs[src].n).Some?
    ensures t == StoreValue(s, s.regs[d], off, 8, s.regs[src].n).value.(pc := s.pc + 1)
    ensures Reaches(x, t)
  {
    t := Go(x, s, n, b);
  }

  lemma GoStoreImm(x: Execution, s: State, n: nat, b: seq<Instruction>, off: i16)
    returns (t: State)
    requires Reaches(x, s) && Stands(x.program, n, b) && n <= s.pc < n + |b|
    requires b[s.pc - n] == I(0x62, 10, 0, off, 0) && s.regs[10] == StackPtr(0) && -512 <= off <= -4
    ensures t == s.(pc := s.pc + 1, stack := StoreSlot(s.stack, off, Slot(0, 4)))
    ensures Reaches(x, t)
  {
    t := Go(x, s, n, b);
  }

  lemma GoLoadMap(x: Execution, s: State, n: nat, b: seq<Instruction>, fd: int)
    returns (t: State)
    requires Reaches(x, s) && Stands(x.program, n, b) && n <= s.pc && s.pc + 1 < n + |b|
    requires b[s.pc - n] == I(0x18, 1, 1, 0, ToI32(fd)) && b[s.pc - n + 1] == NO_OP
    ensures t == s.(pc := s.pc + 2, regs := s.regs[1 := MapRef(ToI32(fd))])
    ensures Reaches(x, t)
  {
    t := Go(x, s, n, b);
  }

  lemma GoCall(x: Execution, s: State, n: nat, b: seq<Instruction>, helper: i32)
    returns (t: State)
    requires Reaches(x, s) && Stands(x.program, n, b) && n <= s.pc < n + |b|
    requires b[s.pc - n] == I(0x85, 0, 0, 0, helper) && CallHelper(x.env, s, helper).Running?
    ensures CallHelper(x.env, s, helper) == Running(t) && t.Valid()
    ensures Reaches(x, t)
  {
    t := Go(x, s, n, b);
  }

  /** The state after a helper call: what it returns, and the kernel it leaves. */
  ghost predicate Returned(s: State, t: State, r0: Value, kernel: Kernel)
    requires s.Valid()
  {
    t.Valid() && t.pc == s.pc + 1 && t.stack == s.stack && t.kernel == kernel
    && t.regs[0] == r0 && t.regs[6] == s.regs[6] && t.regs[7] == s.regs[7] && t.regs[8] == s.regs[8]
    && t.regs[10] == s.regs[10]
  }

  lemma GoClock(x: Execution, s: State, n: nat, b: seq<Instruction>)
    returns (t: State)
    requires Reaches(x, s) && Stands(x.program, n, b) && n <= s.pc < n + |b|
    requires b[s.pc - n] == I(0x85, 0, 0, 0, HELPER_KTIME)
    ensures Reaches(x, t) && Returned(s, t, Scalar(x.env.now), s.kernel)
  {
    t := GoCall(x, s, n, b, HELPER_KTIME);
  }

  lemma GoUpdate(x: Execution, s: State, n: nat, b: seq<Instruction>, key: Key, value: u64)
    returns (t: State)
    requires Reaches(x, s) && Stands(x.program, n, b) && n <= s.pc < n + |b|
    requires b[s.pc - n] == I(0x85, 0, 0, 0, HELPER_UPDATE)
    requires s.regs[1] == MapRef(s.kernel.hashFd) && KeyAt(s, s.regs[2]) == Some(key)
    requires s.regs[3].StackPtr? && LoadSlot(s.stack, s.regs[3].offset, 8) == Some(value) && s.regs[4] == Scalar(0)
    ensures Reaches(x, t)
    ensures Returned(s, t, Scalar(0), s.kernel.(entries := s.kernel.entries[key := value]))
  {
    t := GoCall(x, s, n, b, HELPER_UPDATE);
  }

  lemma GoDelete(x: Execution, s: State, n: nat, b: seq<Instruction>, key: Key)
    returns (t: State)
    requires Reaches(x, s) && Stands(x.program, n, b) && n <= s.pc < n + |b|
    requires b[s.pc - n] == I(0x85, 0, 0, 0, HELPER_DELETE)
    requires s.regs[1] == MapRef(s.kernel.hashFd) && KeyAt(s, s.regs[2]) == Some(key) && key in s.kernel.entries
    ensures Reaches(x, t)
    ensures Returned(s, t, Scalar(0), s.kernel.(entries := s.kernel.entries - {key}))
  {
    t := GoCall(x, s, n, b, HELPER_DELETE);
  }

  lemma GoLookupEntry(x: Execution, s: State, n: nat, b: seq<Instruction>, key: Key)
    returns (t: State)
    requires Reaches(x, s) && Stands(x.program, n, b) && n <= s.pc < n + |b|
    requires b[s.pc - n] == I(0x85, 0, 0, 0, HELPER_LOOKUP)
    requires s.regs[1] == MapRef(s.kernel.hashFd) && KeyAt(s, s.regs[2]) == Some(key)
    ensures Reaches(x, t)
    ensures Returned(s, t, if key in s.kernel.entries then EntryPtr(key, 0) else Scalar(0), s.kernel)
  {
    t := GoCall(x, s, n, b, HELPER_LOOKUP);
  }

  lemma GoLookupCell(x: Execution, s: State, n: nat, b: seq<Instruction>, index: u64)
    returns (t: State)
    requires Reaches(x, s) && Stands(x.program, n, b) && n <= s.pc < n + |b|
    requires b[s.pc - n] == I(0x85, 0, 0, 0, HELPER_LOOKUP) && s.kernel.arrayFd != s.kernel.hashFd
    requires s.regs[1] == MapRef(s.kernel.arrayFd) && IndexAt(s, s.regs[2]) == Some(index)
    ensures Reaches(x, t)
    ensures Returned(s, t, if index < |s.kernel.cells| then CellPtr(index, 0) else Scalar(0), s.kernel)
  {
    t := GoCall(x, s, n, b, HELPER_LOOKUP);
  }

  /** A jump to a label stands at address n. */
  ghost predicate JumpsTo(a: Assembly, n: nat, i: Instruction, target: nat) {
    && n < |a.instructions| && a.instructions[n] == i
    && Recorded(a, n)
    && var name := NameAt(a.fixups, n).value; name in a.labels && a.labels[name] == target
  }

  lemma GoJump(x: Execution, s: State, i: Instruction, target: nat, taken: bool) returns (t: State)
    requires Reaches(x, s) && JumpsTo(x.program, s.pc, i, target) && s.pc < target
    requires i.code != 0x18 && IsBranch(Decode([i], 0)) && Taken(Decode([i], 0), s) == Some(taken)
    ensures t == s.(pc := if taken then target else s.pc + 1)
    ensures Reaches(x, t)
  {
    t := s.(pc := if taken then target else s.pc + 1);
    var a := x.program;
    SameFirst(a.instructions, s.pc, [i], 0);
    assert LabelledStep(a, x.env, s) == Running(t);
    Extend(x, s, t);
  }

  // ----- the blocks -----

  /** The frame pointer is in place and the key is on the stack. */
  ghost predicate Keyed(s: State, key: Key) {
    s.Valid() && s.regs[10] == StackPtr(0) && KeyAt(s, StackPtr(-16)) == Some(key)
  }

  /** Copies one field of the context to the stack. */
  lemma RunFieldCopy(x: Execution, s: State, n: nat, b: seq<Instruction>, field: TracepointField, off: i16)
    returns (t: State)
    requires Reaches(x, s) && Stands(x.program, n, b) && n <= s.pc && s.pc + 1 < n + |b|
    requires s.regs[6] == ContextPtr(0) && s.regs[10] == StackPtr(0) && -512 <= off <= -8
    requires Readable(x.env.context, field)
    requires b[s.pc - n] == FieldLoad(field) && b[s.pc - n + 1] == I(0x7b, 10, 2, off, 0)
    ensures Reaches(x, t) && t.pc == s.pc + 2 && t.kernel == s.kernel
    ensures t.regs[6] == ContextPtr(0) && t.regs[10] == StackPtr(0)
    ensures t.stack == StoreSlot(s.stack, off, Slot(FieldOf(x.env.order, x.env.context, field), 8))
  {
    FieldIsLoaded(x.env.order, x.env.context, field);
    assert ToI16(field.offset) == field.offset;
    var s1 := GoLoad(x, s, n, b, field.size, 2, 6, field.offset);
    t := GoStore(x, s1, n, b, 10, 2, off);
  }

  lemma RunKeyBlock(x: Execution, fields: KeyFields) returns (t: State)
    requires Readable(x.env.context, fields.dev) && Readable(x.env.context, fields.sector)
    requires Stands(x.program, 0, KeyBlock(fields))
    ensures Reaches(x, t) && Keyed(t, KeyOf(x.env.order, x.env.context, fields)) && t.pc == 5 && t.kernel == x.kernel
  {
    var b := KeyBlock(fields);
    AtStart(x);
    var s1 := GoMov(x, Start(x.kernel), 0, b, 6, 1);
    var s3 := RunFieldCopy(x, s1, 0, b, fields.dev, -16);
    t := RunFieldCopy(x, s3, 0, b, fields.sector, -8);
  }

  /** r1 and r2 receive the map and the address of the key. */
  lemma RunArguments(x: Execution, s: State, n: nat, fd: int, off: i16, b: seq<Instruction>)
    returns (t: State)
    requires Reaches(x, s) && s.pc == n && s.regs[10] == StackPtr(0)
    requires Stands(x.program, n, b) && |b| >= 4 && b[..4] == ArgumentBlock(fd, off)
    ensures Reaches(x, t)
    ensures t == s.(pc := n + 4, regs := s.regs[1 := MapRef(ToI32(fd))][2 := StackPtr(off)])
  {
    assert b[0] == ArgumentBlock(fd, off)[0] && b[1] == NO_OP
        && b[2] == ArgumentBlock(fd, off)[2] && b[3] == ArgumentBlock(fd, off)[3];
    var s1 := GoLoadMap(x, s, n, b, fd);
    var s2 := GoMov(x, s1, n, b, 2, 10);
    t := GoAdd(x, s2, n, b, 0x07, 2, 0, off);
    assert t.regs == s.regs[1 := MapRef(ToI32(fd))][2 := StackPtr(off)];
  }

  // ----- the issue program -----

  function IssueAssembly(startFd: int, fields: KeyFields): Assembly
    requires Supported(fields)
  {
    Assembly(IssueCode(startFd, fields), map[], [])
  }

  lemma IssueStands(startFd: int, fields: KeyFields)
    requires Supported(fields)
    ensures var a := IssueAssembly(startFd, fields);
            && Stands(a, 0, KeyBlock(fields)) && Stands(a, 5, ISSUE_CLOCK)
            && Stands(a, 7, ArgumentBlock(startFd, -16)) && Stands(a, 11, ISSUE_STORE)
            && a.instructions[16] == I(0x95, 0, 0, 0, 0)
  {
    FourParts(KeyBlock(fields), ISSUE_CLOCK, ArgumentBlock(startFd, -16), ISSUE_STORE);
    assert IssueCode(startFd, fields)[11 + 5] == ISSUE_STORE[5];
  }

  /** Indexing a concatenation of four parts. */
  lemma FourParts<T>(a: seq<T>, b: seq<T>, c: seq<T>, d: seq<T>)
    ensures var p := a + b + c + d;
            && (forall i :: 0 <= i < |a| ==> p[i] == a[i])
            && (forall i :: 0 <= i < |b| ==> p[|a| + i] == b[i])
            && (forall i :: 0 <= i < |c| ==> p[|a| + |b| + i] == c[i])
            && (forall i :: 0 <= i < |d| ==> p[|a| + |b| + |c| + i] == d[i])
  {
  }

  /** The maps are the ones the programs were built for. */
  ghost predicate Wired(k: Kernel, startFd: int, statsFd: int) {
    && k.hashFd == ToI32(startFd) && k.arrayFd == ToI32(statsFd) && k.hashFd != k.arrayFd
    && forall i :: 0 <= i < |k.cells| ==> |k.cells[i]| == CELL_WORDS
  }

  /** Points r3 at the stored time and clears the flags in r4. */
  lemma RunIssueArguments(x: Execution, s: State) returns (t: State)
    requires Stands(x.program, 11, ISSUE_STORE)
    requires Reaches(x, s) && s.pc == 11 && s.regs[10] == StackPtr(0)
    ensures Reaches(x, t) && t.pc == 14 && t.stack == s.stack && t.kernel == s.kernel
    ensures t.regs[1] == s.regs[1] && t.regs[2] == s.regs[2] && t.regs[3] == StackPtr(-24) && t.regs[4] == Scalar(0)
  {
    var b := ISSUE_STORE;
    var s1 := GoMov(x, s, 11, b, 3, 10);
    var s2 := GoAdd(x, s1, 11, b, 0x07, 3, 0, -24);
    t := GoMovImm(x, s2, 11, b, 4, 0);
  }

  lemma RunIssueStore(x: Execution, s: State, key: Key) returns (t: State)
    requires Stands(x.program, 11, ISSUE_STORE)
    requires Reaches(x, s) && Keyed(s, key) && s.pc == 11 && s.kernel == x.kernel
    requires s.regs[1] == MapRef(x.kernel.hashFd) && s.regs[2] == StackPtr(-16)
    requires LoadSlot(s.stack, -24, 8) == Some(x.env.now)
    ensures Reaches(x, t) && t.pc == 16 && t.regs[0] == Scalar(0)
    ensures t.kernel == IssueEffect(x.kernel, key, x.env.now)
  {
    var s3 := RunIssueArguments(x, s);
    assert KeyAt(s3, s3.regs[2]) == Some(key);
    var s4 := GoUpdate(x, s3, 11, ISSUE_STORE, key, x.env.now);
    t := GoMovImm(x, s4, 11, ISSUE_STORE, 0, 0);
  }

  lemma RunIssue(x: Execution, startFd: int, statsFd: int, fields: KeyFields) returns (t: State)
    requires Wired(x.kernel, startFd, statsFd)
    requires Readable(x.env.context, fields.dev) && Readable(x.env.context, fields.sector)
    requires Stands(x.program, 0, KeyBlock(fields)) && Stands(x.program, 5, ISSUE_CLOCK)
    requires Stands(x.program, 7, ArgumentBlock(startFd, -16)) && Stands(x.program, 11, ISSUE_STORE)
    ensures Reaches(x, t) && t.pc == 16 && t.regs[0] == Scalar(0)
    ensures t.kernel == IssueEffect(x.kernel, KeyOf(x.env.order, x.env.context, fields), x.env.now)
  {
    var s5 := RunKeyBlock(x, fields);
    var s6 := GoClock(x, s5, 5, ISSUE_CLOCK);
    var s7 := GoStore(x, s6, 5, ISSUE_CLOCK, 10, 0, -24);
    var s10 := RunArguments(x, s7, 7, startFd, -16, ArgumentBlock(startFd, -16));
    t := RunIssueStore(x, s10, KeyOf(x.env.order, x.env.context, fields));
  }

  /** Leaving: from r0 a number at an exit instruction, the program halts. */
  lemma Leave(x: Execution, s: State)
    requires Ready(x.program) && Reaches(x, s) && s.pc < |x.program.instructions| && s.regs[0] == Scalar(0)
    requires x.program.instructions[s.pc] == I(0x95, 0, 0, 0, 0)
    requires forall k :: 0 <= k < |x.program.fixups| ==> x.program.fixups[k].index != s.pc
    ensures forall fuel: nat :: fuel > s.pc ==>
              Run(Patched(x.program, |x.program.fixups|), x.env, Start(x.kernel), fuel) == Halted(0, s.kernel)
  {
    NoName(x.program.fixups, s.pc);
    SameFirst(x.program.instructions, s.pc, [I(0x95, 0, 0, 0, 0)], 0);
    assert LabelledStep(x.program, x.env, s) == Halted(0, s.kernel);
    var m: nat :| m <= s.pc && ReachesIn(x, s, m);
    forall fuel: nat | fuel > s.pc
      ensures Run(Patched(x.program, |x.program.fixups|), x.env, Start(x.kernel), fuel) == Halted(0, s.kernel)
    {
      PatchedRunsLikeLabelled(x.program, x.env, Start(x.kernel), fuel);
    }
  }

  /** The bytecode of the issue program halts with r0 = 0 and stores the clock under
      the request's key. */
  lemma IssueIsCorrect(startFd: int, statsFd: int, fields: KeyFields, env: Env, kernel: Kernel, fuel: nat)
    requires Wired(kernel, startFd, statsFd)
    requires Readable(env.context, fields.dev) && Readable(env.context, fields.sector)
    requires fuel >= |IssueCode(startFd, fields)|
    ensures Run(IssueCode(startFd, fields), env, Start(kernel), fuel)
            == Halted(0, IssueEffect(kernel, KeyOf(env.order, env.context, fields), env.now))
  {
    var x := Execution(IssueAssembly(startFd, fields), env, kernel);
    IssueStands(startFd, fields);
    assert Patched(x.program, |x.program.fixups|) == IssueCode(startFd, fields);
    var t := RunIssue(x, startFd, statsFd, fields);
    Leave(x, t);
  }

  // ----- the completion program -----

  ghost predicate HeadShape(a: Assembly, startFd: int, statsFd: int, fields: KeyFields)
    requires Supported(fields)
  {
    && Stands(a, 0, KeyBlock(fields))
    && Stands(a, 5, LookupBlock(startFd)[..5])
    && JumpsTo(a, 10, I(0x15, 0, 0, 0, 0), 87)
    && Stands(a, 11, LATENCY_BLOCK)
    && Stands(a, 15, DeleteBlock(startFd))
    && Stands(a, 21, CellBlock(statsFd)[..5])
    && JumpsTo(a, 26, I(0x15, 0, 0, 0, 0), 87)
  }

  ghost predicate SummaryShape(a: Assembly) {
    && Stands(a, 27, SUMMARY_BLOCK[..8])
    && JumpsTo(a, 35, I(0xbd, 7, 1, 0, 0), 37)
    && Stands(a, 36, SUMMARY_BLOCK[9..])
  }

  ghost predicate TestShape(a: Assembly, i: nat)
    requires i < 9
  {
    JumpsTo(a, 37 + i, I(0xa5, 7, 0, 0, UPPER_NS[i]), 47 + 4 * i)
  }

  ghost predicate BucketShape(a: Assembly, i: nat)
    requires i < 10
  {
    Stands(a, 47 + 4 * i, BucketUpdate(i)[..3]) && JumpsTo(a, 50 + 4 * i, I(0x05, 0, 0, 0, 0), 87)
  }

  ghost predicate HistogramShape(a: Assembly) {
    && (forall i :: 0 <= i < 9 ==> TestShape(a, i))
    && JumpsTo(a, 46, I(0x05, 0, 0, 0, 0), 83)
    && (forall i :: 0 <= i < 10 ==> BucketShape(a, i))
  }

  /** The whole program, as the execution lemmas need it. */
  ghost predicate Shape(a: Assembly, startFd: int, statsFd: int, fields: KeyFields)
    requires Supported(fields)
  {
    HeadShape(a, startFd, statsFd, fields) && SummaryShape(a) && HistogramShape(a) && Stands(a, 87, EXIT_BLOCK)
  }

  /** What the fixups and the label table say. */
  predicate JumpParts(a: Assembly) {
    && |a.instructions| == 89 && |a.fixups| == 23
    && (forall k :: 0 <= k < 23 ==>
          a.fixups[k].index == JumpIndex(k) && a.fixups[k].name in a.labels
          && a.labels[a.fixups[k].name] == JumpTarget(k))
  }

  /** Where the parts of the code are. */
  predicate CodeParts(a: Assembly, startFd: int, statsFd: int, fields: KeyFields)
    requires Supported(fields)
  {
    && |a.instructions| == 89
    && (forall i :: 0 <= i < 37 ==> a.instructions[i] == CompleteHead(startFd, statsFd, fields)[i])
    && (forall i :: 0 <= i < 9 ==> a.instructions[37 + i] == BucketTests(9)[i])
    && a.instructions[46] == I(0x05, 0, 0, 0, 0)
    && (forall i :: 0 <= i < 40 ==> a.instructions[47 + i] == BucketUpdates(10)[i])
    && (forall i :: 0 <= i < 2 ==> a.instructions[87 + i] == EXIT_BLOCK[i])
  }

  predicate Parts(a: Assembly, startFd: int, statsFd: int, fields: KeyFields)
    requires Supported(fields)
  {
    JumpParts(a) && CodeParts(a, startFd, statsFd, fields)
  }

  /** Indexing a concatenation of five parts. */
  lemma FiveParts<T>(h: seq<T>, t: seq<T>, j: T, u: seq<T>, e: seq<T>)
    ensures var p := h + t + [j] + u + e;
            && (forall i :: 0 <= i < |h| ==> p[i] == h[i])
            && (forall i :: 0 <= i < |t| ==> p[|h| + i] == t[i])
            && p[|h| + |t|] == j
            && (forall i :: 0 <= i < |u| ==> p[|h| + |t| + 1 + i] == u[i])
            && (forall i :: 0 <= i < |e| ==> p[|h| + |t| + 1 + |u| + i] == e[i])
  {
  }

  lemma CompleteParts(startFd: int, statsFd: int, fields: KeyFields)
    requires Supported(fields)
    ensures Parts(CompleteAssembly(startFd, statsFd, fields), startFd, statsFd, fields)
  {
    FiveParts(CompleteHead(startFd, statsFd, fields), BucketTests(9), I(0x05, 0, 0, 0, 0), BucketUpdates(10), EXIT_BLOCK);
    var a := CompleteAssembly(startFd, statsFd, fields);
    forall k | 0 <= k < 23
      ensures a.fixups[k].index == JumpIndex(k) && a.fixups[k].name in a.labels
              && a.labels[a.fixups[k].name] == JumpTarget(k)
    {
      LabelAddress(k);
    }
  }

  lemma JumpIndexInjective(j: nat, k: nat)
    requires j < 23 && k < 23 && JumpIndex(j) == JumpIndex(k)
    ensures j == k
  {
  }

  lemma JumpStands(a: Assembly, k: nat)
    requires JumpParts(a) && k < 23
    ensures JumpsTo(a, JumpIndex(k), a.instructions[JumpIndex(k)], JumpTarget(k))
  {
    NoName(a.fixups, JumpIndex(k));
    var j := NameIsRecorded(a.fixups, JumpIndex(k));
    JumpIndexInjective(j, k);
  }

  /** Where the blocks of the head are in its instructions. */
  lemma HeadBlocks(startFd: int, statsFd: int, fields: KeyFields)
    requires Supported(fields)
    ensures var h := CompleteHead(startFd, statsFd, fields);
            && (forall i :: 0 <= i < 5 ==> h[0 + i] == KeyBlock(fields)[i])
            && (forall i :: 0 <= i < 6 ==> h[5 + i] == LookupBlock(startFd)[i])
            && (forall i :: 0 <= i < 4 ==> h[11 + i] == LATENCY_BLOCK[i])
            && (forall i :: 0 <= i < 6 ==> h[15 + i] == DeleteBlock(startFd)[i])
            && (forall i :: 0 <= i < 6 ==> h[21 + i] == CellBlock(statsFd)[i])
            && (forall i :: 0 <= i < 10 ==> h[27 + i] == SUMMARY_BLOCK[i])
  {
  }

  lemma HeadStands(a: Assembly, startFd: int, statsFd: int, fields: KeyFields)
    requires Supported(fields) && Parts(a, startFd, statsFd, fields)
    ensures HeadShape(a, startFd, statsFd, fields)
  {
    HeadBlocks(startFd, statsFd, fields);
    JumpStands(a, 0);
    JumpStands(a, 1);
    assert a.instructions[5 + 5] == LookupBlock(startFd)[5] && a.instructions[21 + 5] == CellBlock(statsFd)[5];
  }

  lemma SummaryStands(a: Assembly, startFd: int, statsFd: int, fields: KeyFields)
    requires Supported(fields) && Parts(a, startFd, statsFd, fields)
    ensures SummaryShape(a)
  {
    HeadBlocks(startFd, statsFd, fields);
    JumpStands(a, 2);
    assert a.instructions[27 + 8] == SUMMARY_BLOCK[8];
    assert a.instructions[27 + 9] == SUMMARY_BLOCK[9];
  }

  lemma TestStands(a: Assembly, startFd: int, statsFd: int, fields: KeyFields, i: nat)
    requires Supported(fields) && Parts(a, startFd, statsFd, fields) && i < 9
    ensures TestShape(a, i)
  {
    assert a.instructions[37 + i] == BucketTests(9)[i];
    JumpStands(a, 3 + i);
  }

  lemma BucketStands(a: Assembly, startFd: int, statsFd: int, fields: KeyFields, i: nat)
    requires Supported(fields) && Parts(a, startFd, statsFd, fields) && i < 10
    ensures BucketShape(a, i)
  {
    forall k | 0 <= k < 4
      ensures a.instructions[47 + 4 * i + k] == BucketUpdate(i)[k]
    {
      BucketUpdatesAt(10, i, k);
      assert a.instructions[47 + (4 * i + k)] == BucketUpdates(10)[4 * i + k];
    }
    assert a.instructions[47 + 4 * i + 3] == BucketUpdate(i)[3];
    JumpStands(a, 13 + i);
  }

  lemma HasShape(a: Assembly, startFd: int, statsFd: int, fields: KeyFields)
    requires Supported(fields) && Parts(a, startFd, statsFd, fields)
    ensures Shape(a, startFd, statsFd, fields)
  {
    HeadStands(a, startFd, statsFd, fields);
    SummaryStands(a, startFd, statsFd, fields);
    forall i | 0 <= i < 9
      ensures TestShape(a, i)
    {
      TestStands(a, startFd, statsFd, fields, i);
    }
    JumpStands(a, 12);
    forall i | 0 <= i < 10
      ensures BucketShape(a, i)
    {
      BucketStands(a, startFd, statsFd, fields, i);
    }
  }

  // Each lemma below runs one part of the program.

  lemma RunLookup(x: Execution, s: State, startFd: int, key: Key) returns (t: State)
    requires Reaches(x, s) && Keyed(s, key) && s.pc == 5 && s.kernel == x.kernel
    requires x.kernel.hashFd == ToI32(startFd)
    requires Stands(x.program, 5, LookupBlock(startFd)[..5]) && JumpsTo(x.program, 10, I(0x15, 0, 0, 0, 0), 87)
    ensures Reaches(x, t) && Keyed(t, key) && t.kernel == x.kernel
    ensures t.pc == if key in x.kernel.entries then 11 else 87
    ensures t.regs[0] == if key in x.kernel.entries then EntryPtr(key, 0) else Scalar(0)
  {
    var b := LookupBlock(startFd)[..5];
    var s1 := RunArguments(x, s, 5, startFd, -16, b);
    var s2 := GoLookupEntry(x, s1, 5, b, key);
    t := GoJump(x, s2, I(0x15, 0, 0, 0, 0), 87, key !in x.kernel.entries);
  }

  /** The stored time is in r7, the clock in r0. */
  ghost predicate TimesRead(s: State, t: State, began: u64, now: u64)
    requires s.Valid()
  {
    && t.Valid() && t.stack == s.stack && t.kernel == s.kernel && t.regs[10] == s.regs[10]
    && t.regs[7] == Scalar(began) && t.regs[0] == Scalar(now)
  }

  lemma RunTimes(x: Execution, s: State, key: Key) returns (t: State)
    requires Reaches(x, s) && s.pc == 11 && key in s.kernel.entries && s.regs[0] == EntryPtr(key, 0)
    requires Stands(x.program, 11, LATENCY_BLOCK)
    ensures Reaches(x, t) && t.pc == 13 && TimesRead(s, t, s.kernel.entries[key], x.env.now)
  {
    var b := LATENCY_BLOCK;
    var s1 := GoLoad(x, s, 11, b, 8, 7, 0, 0);
    assert s1.regs[7] == Scalar(s.kernel.entries[key]) && s1.regs[10] == s.regs[10];
    t := GoClock(x, s1, 11, b);
  }

  lemma RunDifference(x: Execution, s: State, began: u64, now: u64) returns (t: State)
    requires Reaches(x, s) && s.pc == 13 && s.regs[7] == Scalar(began) && s.regs[0] == Scalar(now)
    requires Stands(x.program, 11, LATENCY_BLOCK)
    ensures Reaches(x, t) && t.pc == 15 && t.stack == s.stack && t.kernel == s.kernel
    ensures t.regs[10] == s.regs[10] && t.regs[7] == Scalar(Wrap(now - began))
  {
    var b := LATENCY_BLOCK;
    var s1 := GoSub(x, s, 11, b, 0, 7);
    assert s1.regs[0] == Scalar(Wrap(now - began)) && s1.regs[10] == s.regs[10];
    t := GoMov(x, s1, 11, b, 7, 0);
  }

  lemma RunLatency(x: Execution, s: State, key: Key) returns (t: State)
    requires Reaches(x, s) && Keyed(s, key) && s.pc == 11 && s.kernel == x.kernel
    requires key in x.kernel.entries && s.regs[0] == EntryPtr(key, 0)
    requires Stands(x.program, 11, LATENCY_BLOCK)
    ensures Reaches(x, t) && Keyed(t, key) && t.kernel == x.kernel && t.pc == 15
    ensures t.regs[7] == Scalar(Wrap(x.env.now - x.kernel.entries[key]))
  {
    var s2 := RunTimes(x, s, key);
    t := RunDifference(x, s2, x.kernel.entries[key], x.env.now);
  }

  /** A stored zero is the index of the first cell. */
  lemma IndexIsStored(s: State, t: State, off: int)
    requires t.stack == StoreSlot(s.stack, off, Slot(0, 4))
    ensures IndexAt(t, StackPtr(off)) == Some(0)
  {
  }

  lemma RunDelete(x: Execution, s: State, startFd: int, key: Key) returns (t: State)
    requires Reaches(x, s) && Keyed(s, key) && s.kernel == x.kernel && s.pc == 15
    requires key in x.kernel.entries && x.kernel.hashFd == ToI32(startFd) && s.regs[7].Scalar?
    requires Stands(x.program, 15, DeleteBlock(startFd))
    ensures Reaches(x, t) && t.Valid() && t.pc == 21 && t.regs[10] == StackPtr(0) && t.regs[7] == s.regs[7]
    ensures t.kernel == x.kernel.(entries := x.kernel.entries - {key})
    ensures IndexAt(t, StackPtr(-20)) == Some(0)
  {
    var b := DeleteBlock(startFd);
    var s1 := RunArguments(x, s, 15, startFd, -16, b);
    var s2 := GoDelete(x, s1, 15, b, key);
    t := GoStoreImm(x, s2, 15, b, -20);
    IndexIsStored(s2, t, -20);
  }

  lemma RunCellLookup(x: Execution, s: State, statsFd: int) returns (t: State)
    requires Reaches(x, s) && s.pc == 21 && s.regs[10] == StackPtr(0) && s.regs[7].Scalar?
    requires IndexAt(s, StackPtr(-20)) == Some(0)
    requires s.kernel.arrayFd == ToI32(statsFd) && s.kernel.arrayFd != s.kernel.hashFd
    requires Stands(x.program, 21, CellBlock(statsFd)[..5]) && JumpsTo(x.program, 26, I(0x15, 0, 0, 0, 0), 87)
    ensures Reaches(x, t) && t.kernel == s.kernel && t.regs[7] == s.regs[7]
    ensures t.pc == if s.kernel.cells != [] then 27 else 87
    ensures t.regs[0] == if s.kernel.cells != [] then CellPtr(0, 0) else Scalar(0)
  {
    var b := CellBlock(statsFd)[..5];
    var s1 := RunArguments(x, s, 21, statsFd, -20, b);
    var s2 := GoLookupCell(x, s1, 21, b, 0);
    t := GoJump(x, s2, I(0x15, 0, 0, 0, 0), 87, s.kernel.cells == []);
  }

  /** r7 holds the latency, r8 points to the current CPU's cell. */
  ghost predicate AtCell(s: State, k: Kernel, latency: u64) {
    && s.Valid() && s.kernel == k && s.regs[7] == Scalar(latency) && s.regs[8] == CellPtr(0, 0)
    && |k.cells| > 0 && |k.cells[0]| == CELL_WORDS
  }

  function WithWord(k: Kernel, w: nat, value: u64): (r: Kernel)
    requires |k.cells| > 0 && |k.cells[0]| == CELL_WORDS && w < CELL_WORDS
    ensures |r.cells| == |k.cells| && |r.cells[0]| == CELL_WORDS
  {
    var cell: Cell := k.cells[0][w := value];
    k.(cells := k.cells[0 := cell])
  }

  /** Load a word of the cell, add to it, store it back. */
  lemma RunCellAdd(x: Execution, s: State, n: nat, b: seq<Instruction>, w: nat, byLatency: bool,
                   k: Kernel, latency: u64)
    returns (t: State)
    requires Reaches(x, s) && Stands(x.program, n, b) && n <= s.pc && s.pc + 2 < n + |b|
    requires AtCell(s, k, latency) && w < CELL_WORDS
    requires b[s.pc - n] == I(0x79, 1, 8, 8 * w, 0) && b[s.pc - n + 2] == I(0x7b, 8, 1, 8 * w, 0)
    requires b[s.pc - n + 1] == if byLatency then I(0x0f, 1, 7, 0, 0) else I(0x07, 1, 0, 0, 1)
    ensures Reaches(x, t) && t.pc == s.pc + 3
    ensures AtCell(t, WithWord(k, w, Wrap(k.cells[0][w] as int + if byLatency then latency else 1)), latency)
  {
    var s1 := GoLoad(x, s, n, b, 8, 1, 8, 8 * w);
    assert s1.regs[1] == Scalar(k.cells[0][w]);
    var s2 := GoAdd(x, s1, n, b, if byLatency then 0x0f else 0x07, 1, if byLatency then 7 else 0, if byLatency then 0 else 1);
    t := GoStore(x, s2, n, b, 8, 1, 8 * w);
  }

  /** Count, total and maximum after one more latency. */
  function Summarised(k: Kernel, latency: u64): (r: Kernel)
    requires |k.cells| > 0 && |k.cells[0]| == CELL_WORDS
    ensures |r.cells| > 0 && |r.cells[0]| == CELL_WORDS
  {
    var counted := WithWord(k, 0, Wrap(k.cells[0][0] as int + 1));
    var totalled := WithWord(counted, 1, Wrap(counted.cells[0][1] as int + latency));
    if latency <= totalled.cells[0][2] then totalled else WithWord(totalled, 2, latency)
  }

  lemma RunCounters(x: Execution, s: State, k: Kernel, latency: u64) returns (t: State, total: Kernel)
    requires Reaches(x, s) && s.pc == 27 && s.kernel == k && s.regs[7] == Scalar(latency)
    requires s.regs[0] == CellPtr(0, 0) && |k.cells| > 0 && |k.cells[0]| == CELL_WORDS
    requires Stands(x.program, 27, SUMMARY_BLOCK[..8])
    ensures |k.cells| > 0 && |k.cells[0]| == CELL_WORDS
    ensures var counted := WithWord(k, 0, Wrap(k.cells[0][0] as int + 1));
            total == WithWord(counted, 1, Wrap(counted.cells[0][1] as int + latency))
    ensures Reaches(x, t) && t.pc == 35 && AtCell(t, total, latency) && t.regs[1] == Scalar(total.cells[0][2])
  {
    var b := SUMMARY_BLOCK[..8];
    var s1 := GoMov(x, s, 27, b, 8, 0);
    var s2 := RunCellAdd(x, s1, 27, b, 0, false, k, latency);
    var s3 := RunCellAdd(x, s2, 27, b, 1, true, s2.kernel, latency);
    t := GoLoad(x, s3, 27, b, 8, 1, 8, 16);
    total := s3.kernel;
  }

  lemma RunMaximum(x: Execution, s: State, k: Kernel, latency: u64) returns (t: State)
    requires Reaches(x, s) && s.pc == 35 && AtCell(s, k, latency) && s.regs[1] == Scalar(k.cells[0][2])
    requires SummaryShape(x.program)
    ensures Reaches(x, t) && t.pc == 37
    ensures AtCell(t, if latency <= k.cells[0][2] then k else WithWord(k, 2, latency), latency)
  {
    t := GoJump(x, s, I(0xbd, 7, 1, 0, 0), 37, latency <= k.cells[0][2]);
    if latency > k.cells[0][2] {
      t := GoStore(x, t, 36, SUMMARY_BLOCK[9..], 8, 7, 16);
    }
  }

  /** The branch chain goes to the block of the first bound above the latency. */
  lemma {:induction false} RunDispatch(x: Execution, s: State, i: nat, k: Kernel, latency: u64)
    returns (t: State)
    requires Reaches(x, s) && i <= 9 && s.pc == 37 + i && AtCell(s, k, latency)
    requires HistogramShape(x.program)
    ensures Reaches(x, t) && AtCell(t, k, latency)
    ensures t.pc == 47 + 4 * FirstAbove(latency, i)
    decreases 9 - i
  {
    if i == 9 {
      t := GoJump(x, s, I(0x05, 0, 0, 0, 0), 83, true);
    } else {
      assert TestShape(x.program, i);
      t := GoJump(x, s, I(0xa5, 7, 0, 0, UPPER_NS[i]), 47 + 4 * i, latency < Wrap(UPPER_NS[i]));
      if latency >= UPPER_NS[i] {
        t := RunDispatch(x, t, i + 1, k, latency);
      }
    }
  }

  lemma RunBucket(x: Execution, s: State, i: nat, k: Kernel, latency: u64) returns (t: State)
    requires Reaches(x, s) && i < 10 && s.pc == 47 + 4 * i && AtCell(s, k, latency)
    requires HistogramShape(x.program)
    ensures Reaches(x, t) && t.pc == 87
    ensures AtCell(t, WithWord(k, 3 + i, Wrap(k.cells[0][3 + i] as int + 1)), latency)
  {
    var b := BucketUpdate(i)[..3];
    assert BucketShape(x.program, i);
    t := RunCellAdd(x, s, 47 + 4 * i, b, 3 + i, false, k, latency);
    t := GoJump(x, t, I(0x05, 0, 0, 0, 0), 87, true);
  }

  lemma SummaryThenBucketIsRecord(k: Kernel, latency: u64)
    requires |k.cells| > 0 && |k.cells[0]| == CELL_WORDS
    ensures var s := Summarised(k, latency);
            var w := 3 + BucketOf(latency);
            WithWord(s, w, Wrap(s.cells[0][w] as int + 1)) == k.(cells := k.cells[0 := Record(k.cells[0], latency)])
  {
    var s := Summarised(k, latency);
    var w := 3 + BucketOf(latency);
    assert WithWord(s, w, Wrap(s.cells[0][w] as int + 1)).cells[0] == Record(k.cells[0], latency);
    assert WithWord(s, w, Wrap(s.cells[0][w] as int + 1)).cells == k.cells[0 := Record(k.cells[0], latency)];
  }

  lemma RunSummary(x: Execution, s: State, k: Kernel, latency: u64) returns (t: State)
    requires Reaches(x, s) && s.pc == 27 && s.kernel == k && s.regs[7] == Scalar(latency)
    requires s.regs[0] == CellPtr(0, 0) && |k.cells| > 0 && |k.cells[0]| == CELL_WORDS
    requires SummaryShape(x.program)
    ensures Reaches(x, t) && t.pc == 37 && AtCell(t, Summarised(k, latency), latency)
  {
    var s1, total := RunCounters(x, s, k, latency);
    t := RunMaximum(x, s1, total, latency);
  }

  lemma RunBuckets(x: Execution, s: State, k: Kernel, latency: u64) returns (t: State)
    requires Reaches(x, s) && s.pc == 37 && AtCell(s, k, latency) && HistogramShape(x.program)
    ensures Reaches(x, t) && t.pc == 87
    ensures var w := 3 + BucketOf(latency);
            AtCell(t, WithWord(k, w, Wrap(k.cells[0][w] as int + 1)), latency)
  {
    var s3 := RunDispatch(x, s, 0, k, latency);
    t := RunBucket(x, s3, BucketOf(latency), k, latency);
  }

  /** From a looked-up cell to the exit. */
  lemma RunRecord(x: Execution, s: State, k: Kernel, latency: u64) returns (t: State)
    requires Reaches(x, s) && s.pc == 27 && s.kernel == k && s.regs[7] == Scalar(latency)
    requires s.regs[0] == CellPtr(0, 0) && |k.cells| > 0 && |k.cells[0]| == CELL_WORDS
    requires SummaryShape(x.program) && HistogramShape(x.program)
    ensures Reaches(x, t) && t.pc == 87
    ensures t.kernel == k.(cells := k.cells[0 := Record(k.cells[0], latency)])
  {
    var s2 := RunSummary(x, s, k, latency);
    t := RunBuckets(x, s2, s2.kernel, latency);
    SummaryThenBucketIsRecord(k, latency);
  }

  lemma RunComplete(x: Execution, startFd: int, statsFd: int, fields: KeyFields) returns (t: State)
    requires Wired(x.kernel, startFd, statsFd)
    requires Readable(x.env.context, fields.dev) && Readable(x.env.context, fields.sector)
    requires HeadShape(x.program, startFd, statsFd, fields) && SummaryShape(x.program) && HistogramShape(x.program)
    ensures Reaches(x, t) && t.pc == 87
    ensures t.kernel == CompleteEffect(x.kernel, KeyOf(x.env.order, x.env.context, fields), x.env.now)
  {
    var key := KeyOf(x.env.order, x.env.context, fields);
    var s5 := RunKeyBlock(x, fields);
    t := RunLookup(x, s5, startFd, key);
    if key in x.kernel.entries {
      var s14 := RunLatency(x, t, key);
      var s19 := RunDelete(x, s14, startFd, key);
      t := RunCellLookup(x, s19, statsFd);
      if x.kernel.cells != [] {
        t := RunRecord(x, t, t.kernel, Wrap(x.env.now - x.kernel.entries[key]));
      }
    }
  }

  lemma RunExit(x: Execution, s: State)
    requires Ready(x.program) && Stands(x.program, 87, EXIT_BLOCK) && Reaches(x, s) && s.pc == 87
    ensures forall fuel: nat :: fuel > s.pc + 1 ==>
              Run(Patched(x.program, |x.program.fixups|), x.env, Start(x.kernel), fuel) == Halted(0, s.kernel)
  {
    var t := GoMovImm(x, s, 87, EXIT_BLOCK, 0, 0);
    assert x.program.instructions[87 + 1] == EXIT_BLOCK[1];
    Leave(x, t);
  }

  /** The bytecode of the completion program halts with r0 = 0. When the key is absent
      nothing changes; otherwise its entry goes, and the cell, if there is one,
      records the latency. */
  lemma CompleteIsCorrect(startFd: int, statsFd: int, fields: KeyFields, env: Env, kernel: Kernel, fuel: nat)
    requires Wired(kernel, startFd, statsFd)
    requires Readable(env.context, fields.dev) && Readable(env.context, fields.sector)
    requires fuel >= |CompleteCode(startFd, statsFd, fields)|
    ensures Run(CompleteCode(startFd, statsFd, fields), env, Start(kernel), fuel)
            == Halted(0, CompleteEffect(kernel, KeyOf(env.order, env.context, fields), env.now))
  {
    var x := Execution(CompleteAssembly(startFd, statsFd, fields), env, kernel);
    CompleteParts(startFd, statsFd, fields);
    CompleteResolves(startFd, statsFd, fields);
    HasShape(x.program, startFd, statsFd, fields);
    var s := RunComplete(x, startFd, statsFd, fields);
    RunExit(x, s);
  }
}
