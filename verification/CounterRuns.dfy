/** The count-only tracepoint program: one atomic increment of one array cell. */
module CounterRuns {
  import opened Words
  import opened Bpf
  import opened Assembler
  import opened LatencyPrograms
  import opened LatencyExecution

  function CounterProgram(mapFd: int, key: u32): (p: seq<Instruction>)
    ensures |p| == 11
  {
    [I(0x18, 1, 1, 0, ToI32(mapFd)), NO_OP,
     I(0xbf, 2, 10, 0, 0), I(0x07, 2, 0, 0, -4), I(0x62, 2, 0, 0, ToI32(key)),
     I(0x85, 0, 0, 0, HELPER_LOOKUP), I(0x15, 0, 0, 2, 0),
     I(0xb7, 1, 0, 0, 1), I(0xdb, 0, 1, 0, 0),
     I(0xb7, 0, 0, 0, 0), I(0x95, 0, 0, 0, 0)]
  }

  predicate CountersOk(k: Kernel) {
    forall i :: 0 <= i < |k.cells| ==> |k.cells[i]| == 1
  }

  function CountEffect(k: Kernel, key: u32): (r: Kernel)
    requires CountersOk(k)
    ensures CountersOk(r)
  {
    if key < |k.cells| then k.(cells := k.cells[key := [Wrap(k.cells[key][0] as int + 1)]]) else k
  }

  /** A program without labels is its own assembly. */
  function Flat(code: seq<Instruction>): Assembly {
    Assembly(code, map[], [])
  }

  lemma GoStoreKey(x: Execution, s: State, n: nat, b: seq<Instruction>, key: u32) returns (t: State)
    requires Reaches(x, s) && Stands(x.program, n, b) && n <= s.pc < n + |b|
    requires b[s.pc - n] == I(0x62, 2, 0, 0, ToI32(key)) && s.regs[2] == StackPtr(-4)
    ensures Reaches(x, t) && t.Valid() && t.pc == s.pc + 1 && t.regs == s.regs && t.kernel == s.kernel
    ensures IndexAt(t, StackPtr(-4)) == Some(key)
  {
    assert ToI32(key) % 0x1_0000_0000 == key;
    t := Go(x, s, n, b);
  }

  lemma GoBranch(x: Execution, s: State, n: nat, b: seq<Instruction>, taken: bool) returns (t: State)
    requires Reaches(x, s) && Stands(x.program, n, b) && n <= s.pc < n + |b|
    requires b[s.pc - n] == I(0x15, 0, 0, 2, 0)
    requires if taken then s.regs[0] == Scalar(0) else s.regs[0].CellPtr?
    ensures Reaches(x, t) && t == s.(pc := s.pc + (if taken then 3 else 1))
  {
    t := Go(x, s, n, b);
  }

  lemma GoIncrement(x: Execution, s: State, n: nat, b: seq<Instruction>, key: u32) returns (t: State)
    requires Reaches(x, s) && Stands(x.program, n, b) && n <= s.pc < n + |b|
    requires b[s.pc - n] == I(0xdb, 0, 1, 0, 0) && CountersOk(s.kernel) && key < |s.kernel.cells|
    requires s.regs[0] == CellPtr(key, 0) && s.regs[1] == Scalar(1)
    ensures Reaches(x, t) && t.pc == s.pc + 1 && t.kernel == CountEffect(s.kernel, key)
  {
    t := Go(x, s, n, b);
    assert s.kernel.cells[key][0 := Wrap(s.kernel.cells[key][0] as int + 1)] == [Wrap(s.kernel.cells[key][0] as int + 1)];
  }

  lemma RunKeyArgument(x: Execution, mapFd: int, key: u32) returns (t: State)
    requires Stands(x.program, 0, CounterProgram(mapFd, key))
    ensures Reaches(x, t) && t.pc == 4 && t.kernel == x.kernel
    ensures t.regs[1] == MapRef(ToI32(mapFd)) && t.regs[2] == StackPtr(-4)
  {
    var b := CounterProgram(mapFd, key);
    AtStart(x);
    var s1 := GoLoadMap(x, Start(x.kernel), 0, b, mapFd);
    var s2 := GoMov(x, s1, 0, b, 2, 10);
    t := GoAdd(x, s2, 0, b, 0x07, 2, 0, -4);
  }

  lemma RunKeyLookup(x: Execution, mapFd: int, key: u32) returns (t: State)
    requires Stands(x.program, 0, CounterProgram(mapFd, key))
    requires x.kernel.arrayFd == ToI32(mapFd) && x.kernel.hashFd != x.kernel.arrayFd
    ensures Reaches(x, t) && t.pc == 6 && t.kernel == x.kernel
    ensures t.regs[0] == if key < |x.kernel.cells| then CellPtr(key, 0) else Scalar(0)
  {
    var b := CounterProgram(mapFd, key);
    var s3 := RunKeyArgument(x, mapFd, key);
    var s4 := GoStoreKey(x, s3, 0, b, key);
    t := GoLookupCell(x, s4, 0, b, key);
  }

  lemma RunCounter(x: Execution, mapFd: int, key: u32) returns (t: State)
    requires Stands(x.program, 0, CounterProgram(mapFd, key)) && CountersOk(x.kernel)
    requires x.kernel.arrayFd == ToI32(mapFd) && x.kernel.hashFd != x.kernel.arrayFd
    ensures Reaches(x, t) && t.pc == 10 && t.regs[0] == Scalar(0)
    ensures t.kernel == CountEffect(x.kernel, key)
  {
    var b := CounterProgram(mapFd, key);
    var s5 := RunKeyLookup(x, mapFd, key);
    t := GoBranch(x, s5, 0, b, key >= |x.kernel.cells|);
    if key < |x.kernel.cells| {
      t := GoMovImm(x, t, 0, b, 1, 1);
      t := GoIncrement(x, t, 0, b, key);
    }
    t := GoMovImm(x, t, 0, b, 0, 0);
  }

  /** The bytecode of a counter program halts with r0 = 0 after adding one, modulo
      2^64, to its cell and to nothing else. */
  lemma CounterIsCorrect(mapFd: int, key: u32, env: Env, kernel: Kernel, fuel: nat)
    requires kernel.arrayFd == ToI32(mapFd) && kernel.hashFd != kernel.arrayFd && CountersOk(kernel)
    requires fuel >= |CounterProgram(mapFd, key)|
    ensures Run(CounterProgram(mapFd, key), env, Start(kernel), fuel) == Halted(0, CountEffect(kernel, key))
  {
    var x := Execution(Flat(CounterProgram(mapFd, key)), env, kernel);
    assert Patched(x.program, 0) == CounterProgram(mapFd, key);
    var t := RunCounter(x, mapFd, key);
    Leave(x, t);
  }

  // ----- counting over a window -----

  /** Runs programs on shared counters in the given order; the CPU does not matter. */
  function RunCounters(env: Env, mapFd: int, k: Kernel, keys: seq<u32>): Kernel {
    if keys == [] then k else
    var before := RunCounters(env, mapFd, k, keys[..|keys| - 1]);
    var code := CounterProgram(mapFd, keys[|keys| - 1]);
    match Run(code, env, Start(before), |code|)
    case Halted(_, after) => after
    case _ => before
  }

  function Occurrences(keys: seq<u32>, key: u32): nat {
    if keys == [] then 0
    else Occurrences(keys[..|keys| - 1], key) + (if keys[|keys| - 1] == key then 1 else 0)
  }

  /** The difference of two readings, nothing when the counter went back. */
  function CounterDelta(start: u64, end: u64): u64 {
    if end < start then 0 else end - start
  }

  function CountAll(k: Kernel, keys: seq<u32>): (r: Kernel)
    requires CountersOk(k)
    ensures CountersOk(r) && |r.cells| == |k.cells| && r.arrayFd == k.arrayFd && r.hashFd == k.hashFd
  {
    if keys == [] then k else CountEffect(CountAll(k, keys[..|keys| - 1]), keys[|keys| - 1])
  }

  /** One more run, as its effect. */
  lemma RunOne(env: Env, mapFd: int, before: Kernel, key: u32)
    requires before.arrayFd == ToI32(mapFd) && before.hashFd != before.arrayFd && CountersOk(before)
    ensures var code := CounterProgram(mapFd, key);
            Run(code, env, Start(before), |code|) == Halted(0, CountEffect(before, key))
  {
    CounterIsCorrect(mapFd, key, env, before, |CounterProgram(mapFd, key)|);
  }

  lemma {:induction false} RunsAreEffects(env: Env, mapFd: int, k: Kernel, keys: seq<u32>)
    requires k.arrayFd == ToI32(mapFd) && k.hashFd != k.arrayFd && CountersOk(k)
    ensures RunCounters(env, mapFd, k, keys) == CountAll(k, keys)
  {
    if keys == [] {
    } else {
      RunsAreEffects(env, mapFd, k, keys[..|keys| - 1]);
      RunOne(env, mapFd, CountAll(k, keys[..|keys| - 1]), keys[|keys| - 1]);
    }
  }

  lemma {:induction false} EffectsCount(k: Kernel, keys: seq<u32>, key: u32)
    requires CountersOk(k) && key < |k.cells|
    ensures CountAll(k, keys).cells[key][0] == Wrap(k.cells[key][0] as int + Occurrences(keys, key))
  {
    if keys == [] {
    } else {
      EffectsCount(k, keys[..|keys| - 1], key);
      WrapAdd(k.cells[key][0] as int + Occurrences(keys[..|keys| - 1], key), 1);
    }
  }

  /** A difference of readings is exact unless the counter wrapped in between. */
  lemma WrappedDelta(start: u64, n: nat)
    requires n < TWO_64
    ensures CounterDelta(start, Wrap(start as int + n)) == if start + n < TWO_64 then n else 0
  {
  }

  /** The reported count of a window is the number of increments, unless the counter
      wraps. */
  lemma WindowDelta(k: Kernel, keys: seq<u32>, key: u32)
    requires CountersOk(k) && key < |k.cells| && Occurrences(keys, key) < TWO_64
    ensures CounterDelta(k.cells[key][0], CountAll(k, keys).cells[key][0])
            == if k.cells[key][0] + Occurrences(keys, key) < TWO_64 then Occurrences(keys, key) else 0
  {
    EffectsCount(k, keys, key);
    WrappedDelta(k.cells[key][0], Occurrences(keys, key));
  }

  /** Any interleaving of runs of the bytecode adds to each counter the number of its own
      runs, so the reported count of a window is that number unless the counter wraps. */
  lemma WindowCount(env: Env, mapFd: int, k: Kernel, keys: seq<u32>, key: u32)
    requires k.arrayFd == ToI32(mapFd) && k.hashFd != k.arrayFd && CountersOk(k) && key < |k.cells|
    requires Occurrences(keys, key) < TWO_64
    ensures var after := RunCounters(env, mapFd, k, keys).cells;
            && |after| == |k.cells| && |after[key]| == 1
            && CounterDelta(k.cells[key][0], after[key][0])
               == if k.cells[key][0] + Occurrences(keys, key) < TWO_64 then Occurrences(keys, key) else 0
  {
    RunsAreEffects(env, mapFd, k, keys);
    WindowDelta(k, keys, key);
  }
}
