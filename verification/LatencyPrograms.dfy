/** The two generated programs that measure block request latency, and what running
    their bytecode does. */
module LatencyPrograms {
  import opened Words
  import opened Bpf
  import opened Assembler

  datatype TracepointField = TracepointField(offset: u64, size: u64)

  datatype KeyFields = KeyFields(dev: TracepointField, sector: TracepointField)

  datatype ProgramError = UnsupportedSize(size: u64) | Unassembled(error: AssemblyError)

  /** The kernel's helpers that the programs call. */
  const HELPER_LOOKUP := 1
  const HELPER_UPDATE := 2
  const HELPER_DELETE := 3
  const HELPER_KTIME := 5

  const BUCKET_COUNT: nat := 10

  const UPPER_NS: seq<i32> :=
    [10_000, 50_000, 100_000, 500_000, 1_000_000, 5_000_000, 10_000_000, 50_000_000, 100_000_000]

  /** How the buckets are shown. */
  const BUCKET_LABELS: seq<string> := [
    "< 10 us", "10-49 us", "50-99 us", "100-499 us", "500-999 us", "1-4.999 ms", "5-9.999 ms", "10-49.999 ms",
    "50-99.999 ms", "100 ms+"]

  predicate SupportedSize(size: u64) {
    size == 1 || size == 2 || size == 4 || size == 8
  }

  predicate Supported(fields: KeyFields) {
    SupportedSize(fields.dev.size) && SupportedSize(fields.sector.size)
  }

  function ContextLoadCode(size: u64): Option<u8> {
    if size == 1 then Some(0x71)
    else if size == 2 then Some(0x69)
    else if size == 4 then Some(0x61)
    else if size == 8 then Some(0x79)
    else None
  }

  /** A field size is supported exactly when some instruction loads that many bytes, and the
      code the builder uses is that instruction's. */
  lemma SupportedIsLoadable(size: u64)
    ensures SupportedSize(size) <==> exists i: Instruction :: Loads(i, size)
    ensures ContextLoadCode(size).Some? <==> SupportedSize(size)
    ensures SupportedSize(size) ==> Loads(Instruction(ContextLoadCode(size).value, 0, 0, 0), size)
  {
    if SupportedSize(size) { assert Loads(Instruction(ContextLoadCode(size).value, 0, 0, 0), size); }
  }

  predicate Loads(i: Instruction, size: nat) {
    Decode([i], 0).Load? && Decode([i], 0).size == size
  }

  /** One instruction as the builder writes it. */
  type Nibble = x: nat | x < 16

  function I(code: u8, dst: Nibble, src: Nibble, off: i16, imm: i32): Instruction {
    Instruction(code, Register(dst, src), off, imm)
  }

  function FieldLoad(field: TracepointField): Instruction
    requires SupportedSize(field.size)
  {
    I(ContextLoadCode(field.size).value, 2, 6, ToI16(field.offset), 0)
  }

  function BucketLabel(i: nat): string
    requires i < BUCKET_COUNT
  {
    "bucket_" + [('0' as int + i) as char]
  }

  lemma BucketLabelsDiffer(i: nat, j: nat)
    requires i < BUCKET_COUNT && j < BUCKET_COUNT && i != j
    ensures BucketLabel(i) != BucketLabel(j)
  {
    assert BucketLabel(i)[7] == ('0' as int + i) as char;
    assert BucketLabel(j)[7] == ('0' as int + j) as char;
  }

  lemma BucketLabelIsNew(i: nat)
    requires i < BUCKET_COUNT
    ensures BucketLabel(i) != "exit" && BucketLabel(i) != "histogram"
  {
    assert |BucketLabel(i)| == 8 && |"exit"| == 4 && |"histogram"| == 9;
  }

  const NO_OP := Instruction(0, 0, 0, 0)

  // ----- the code, in blocks -----

  /** Saves the context and copies both key fields to the stack. */
  function KeyBlock(fields: KeyFields): seq<Instruction>
    requires Supported(fields)
  {
    [I(0xbf, 6, 1, 0, 0), FieldLoad(fields.dev), I(0x7b, 10, 2, -16, 0), FieldLoad(fields.sector), I(0x7b, 10, 2, -8, 0)]
  }

  /** Puts a map into r1 and the address of its stack key into r2. */
  function ArgumentBlock(mapFd: int, keyOffset: i16): seq<Instruction> {
    [I(0x18, 1, 1, 0, ToI32(mapFd)), NO_OP, I(0xbf, 2, 10, 0, 0), I(0x07, 2, 0, 0, keyOffset)]
  }

  const SUMMARY_BLOCK := [
    I(0xbf, 8, 0, 0, 0),
    I(0x79, 1, 8, 0, 0), I(0x07, 1, 0, 0, 1), I(0x7b, 8, 1, 0, 0),
    I(0x79, 1, 8, 8, 0), I(0x0f, 1, 7, 0, 0), I(0x7b, 8, 1, 8, 0),
    I(0x79, 1, 8, 16, 0), I(0xbd, 7, 1, 0, 0), I(0x7b, 8, 7, 16, 0)]

  function BucketUpdate(i: nat): seq<Instruction>
    requires i < 10
  {
    [I(0x79, 1, 8, 24 + 8 * i, 0), I(0x07, 1, 0, 0, 1), I(0x7b, 8, 1, 24 + 8 * i, 0), I(0x05, 0, 0, 0, 0)]
  }

  function BucketUpdates(n: nat): (r: seq<Instruction>)
    requires n <= 10
    ensures |r| == 4 * n
  {
    seq(4 * n, k requires 0 <= k < 4 * n => BucketUpdate(k / 4)[k % 4])
  }

  lemma BucketUpdatesAt(n: nat, i: nat, k: nat)
    requires i < n <= 10 && k < 4
    ensures BucketUpdates(n)[4 * i + k] == BucketUpdate(i)[k]
  {
  }

  lemma OneMoreUpdate(n: nat)
    requires n < 10
    ensures BucketUpdates(n + 1) == BucketUpdates(n) + BucketUpdate(n)
  {
    forall k | 0 <= k < 4
      ensures BucketUpdates(n + 1)[4 * n + k] == BucketUpdate(n)[k]
    {
      BucketUpdatesAt(n + 1, n, k);
    }
  }

  function BucketTests(n: nat): seq<Instruction>
    requires n <= 9
  {
    seq(n, i requires 0 <= i < n => I(0xa5, 7, 0, 0, UPPER_NS[i]))
  }

  /** Where the j-th jump of the completion program stands, and where it goes. */
  function JumpIndex(j: nat): nat
    requires j < 23
  {
    if j == 0 then 10 else if j == 1 then 26 else if j == 2 then 35 else if j <= 12 then 34 + j else 4 * j - 2
  }

  function JumpTarget(j: nat): nat
    requires j < 23
  {
    if j == 2 then 37 else if 3 <= j <= 12 then 35 + 4 * j else 87
  }

  function JumpLabel(j: nat): string
    requires j < 23
  {
    if j == 2 then "histogram" else if 3 <= j <= 12 then BucketLabel(j - 3) else "exit"
  }

  /** The first n jumps of the completion program. */
  function Jumps(n: nat): seq<Fixup>
    requires n <= 23
  {
    seq(n, j requires 0 <= j < n => Fixup(JumpIndex(j), JumpLabel(j)))
  }

  function BucketLabels(n: nat): map<string, nat>
    requires n <= 10
  {
    if n == 0 then map["histogram" := 37] else BucketLabels(n - 1)[BucketLabel(n - 1) := 47 + 4 * (n - 1)]
  }

  /** Looks the key up; the jump leaves when it is absent. */
  function LookupBlock(startFd: int): seq<Instruction> {
    ArgumentBlock(startFd, -16) + [I(0x85, 0, 0, 0, HELPER_LOOKUP), I(0x15, 0, 0, 0, 0)]
  }

  const LATENCY_BLOCK :=
    [I(0x79, 7, 0, 0, 0), I(0x85, 0, 0, 0, HELPER_KTIME), I(0x1f, 0, 7, 0, 0), I(0xbf, 7, 0, 0, 0)]

  function DeleteBlock(startFd: int): seq<Instruction> {
    ArgumentBlock(startFd, -16) + [I(0x85, 0, 0, 0, HELPER_DELETE), I(0x62, 10, 0, -20, 0)]
  }

  function CellBlock(statsFd: int): seq<Instruction> {
    ArgumentBlock(statsFd, -20) + [I(0x85, 0, 0, 0, HELPER_LOOKUP), I(0x15, 0, 0, 0, 0)]
  }

  function CompleteHead(startFd: int, statsFd: int, fields: KeyFields): (r: seq<Instruction>)
    requires Supported(fields)
    ensures |r| == 37
  {
    KeyBlock(fields) + LookupBlock(startFd) + LATENCY_BLOCK + DeleteBlock(startFd) + CellBlock(statsFd) + SUMMARY_BLOCK
  }

  const EXIT_BLOCK := [I(0xb7, 0, 0, 0, 0), I(0x95, 0, 0, 0, 0)]

  function CompleteInstructions(startFd: int, statsFd: int, fields: KeyFields): (r: seq<Instruction>)
    requires Supported(fields)
    ensures |r| == 89
  {
    CompleteHead(startFd, statsFd, fields) + BucketTests(9) + [I(0x05, 0, 0, 0, 0)] + BucketUpdates(10) + EXIT_BLOCK
  }

  /** The jump tables of the completion program. */
  predicate Tables(a: Assembly) {
    |a.instructions| == 89 && a.labels == BucketLabels(10)["exit" := 87] && a.fixups == Jumps(23)
  }

  /** What the builder of the completion program holds just before finalize. */
  function CompleteAssembly(startFd: int, statsFd: int, fields: KeyFields): (a: Assembly)
    requires Supported(fields)
    ensures Tables(a)
  {
    Assembly(CompleteInstructions(startFd, statsFd, fields), BucketLabels(10)["exit" := 87], Jumps(23))
  }

  lemma {:induction false} BucketLabelsAt(n: nat, i: nat)
    requires i < n <= 10
    ensures BucketLabel(i) in BucketLabels(n) && BucketLabels(n)[BucketLabel(i)] == 47 + 4 * i
  {
    if i < n - 1 {
      BucketLabelsDiffer(i, n - 1);
      BucketLabelsAt(n - 1, i);
    }
  }

  lemma {:induction false} HistogramLabelAt(n: nat)
    requires n <= 10
    ensures "histogram" in BucketLabels(n) && BucketLabels(n)["histogram"] == 37
  {
    if n == 0 {
    } else {
      BucketLabelIsNew(n - 1);
      HistogramLabelAt(n - 1);
    }
  }

  lemma LabelAddress(j: nat)
    requires j < 23
    ensures var labels := BucketLabels(10)["exit" := 87];
            JumpLabel(j) in labels && labels[JumpLabel(j)] == JumpTarget(j)
  {
    if j == 2 {
      HistogramLabelAt(10);
      assert |"exit"| == 4 && |"histogram"| == 9;
    } else if 3 <= j <= 12 {
      BucketLabelIsNew(j - 3);
      BucketLabelsAt(10, j - 3);
    }
  }

  lemma JumpIndexIncreases(j: nat, k: nat)
    requires j < k < 23
    ensures JumpIndex(j) < JumpIndex(k) < 89
  {
  }

  lemma JumpsResolve(a: Assembly)
    requires Tables(a)
    ensures WellFormed(a) && AllResolvable(a)
  {
    forall j | 0 <= j < |a.fixups|
      ensures a.fixups[j].index < |a.instructions| && Resolvable(a.labels, a.fixups[j])
    {
      LabelAddress(j);
    }
    forall j, k | 0 <= j < k < |a.fixups|
      ensures a.fixups[j].index < a.fixups[k].index
    {
      JumpIndexIncreases(j, k);
    }
  }

  lemma CompleteResolves(startFd: int, statsFd: int, fields: KeyFields)
    requires Supported(fields)
    ensures WellFormed(CompleteAssembly(startFd, statsFd, fields))
    ensures AllResolvable(CompleteAssembly(startFd, statsFd, fields))
  {
    JumpsResolve(CompleteAssembly(startFd, statsFd, fields));
  }

  function PatchTables(a: Assembly): (r: seq<Instruction>)
    requires Tables(a)
    ensures |r| == 89
  {
    JumpsResolve(a);
    Patched(a, |a.fixups|)
  }

  /** The completion program. */
  function CompleteCode(startFd: int, statsFd: int, fields: KeyFields): (r: seq<Instruction>)
    requires Supported(fields)
    ensures |r| == 89
  {
    PatchTables(CompleteAssembly(startFd, statsFd, fields))
  }

  // ----- the builder calls -----

  method LoadContextKey(builder: InstructionBuilder, fields: KeyFields) returns (error: Option<ProgramError>)
    requires builder.Valid()
    modifies builder
    ensures builder.Valid()
    ensures error.None? <==> Supported(fields)
    ensures Supported(fields) ==>
              && builder.instructions == old(builder.instructions) + KeyBlock(fields)[1..]
              && builder.labels == old(builder.labels) && builder.fixups == old(builder.fixups)
  {
    var code := ContextLoadCode(fields.dev.size);
    if code.None? { return Some(UnsupportedSize(fields.dev.size)); }
    builder.Emit(code.value, 2, 6, ToI16(fields.dev.offset), 0);
    builder.Emit(0x7b, 10, 2, -16, 0);
    code := ContextLoadCode(fields.sector.size);
    if code.None? { return Some(UnsupportedSize(fields.sector.size)); }
    builder.Emit(code.value, 2, 6, ToI16(fields.sector.offset), 0);
    builder.Emit(0x7b, 10, 2, -8, 0);
    return None;
  }

  method EmitArguments(builder: InstructionBuilder, mapFd: int, keyOffset: i16)
    requires builder.Valid()
    modifies builder
    ensures builder.Valid()
    ensures builder.instructions == old(builder.instructions) + ArgumentBlock(mapFd, keyOffset)
    ensures builder.labels == old(builder.labels) && builder.fixups == old(builder.fixups)
  {
    builder.LoadMap(1, mapFd);
    builder.Emit(0xbf, 2, 10, 0, 0);
    builder.Emit(0x07, 2, 0, 0, keyOffset);
  }

  method EmitCounters(builder: InstructionBuilder)
    requires builder.Valid()
    modifies builder
    ensures builder.Valid()
    ensures builder.instructions == old(builder.instructions) + SUMMARY_BLOCK[..8]
    ensures builder.labels == old(builder.labels) && builder.fixups == old(builder.fixups)
  {
    builder.Emit(0xbf, 8, 0, 0, 0);
    builder.Emit(0x79, 1, 8, 0, 0);
    builder.Emit(0x07, 1, 0, 0, 1);
    builder.Emit(0x7b, 8, 1, 0, 0);
    assert builder.instructions == old(builder.instructions) + SUMMARY_BLOCK[..4];
    builder.Emit(0x79, 1, 8, 8, 0);
    builder.Emit(0x0f, 1, 7, 0, 0);
    builder.Emit(0x7b, 8, 1, 8, 0);
    builder.Emit(0x79, 1, 8, 16, 0);
  }

  method EmitSummary(builder: InstructionBuilder)
    requires builder.Valid()
    modifies builder
    ensures builder.Valid()
    ensures builder.instructions == old(builder.instructions) + SUMMARY_BLOCK
    ensures builder.labels == old(builder.labels)
    ensures builder.fixups == old(builder.fixups) + [Fixup(|old(builder.instructions)| + 8, "histogram")]
  {
    EmitCounters(builder);
    builder.Jump(0xbd, 7, 1, 0, "histogram");
    builder.Emit(0x7b, 8, 7, 16, 0);
  }

  const ISSUE_CLOCK := [I(0x85, 0, 0, 0, HELPER_KTIME), I(0x7b, 10, 0, -24, 0)]

  const ISSUE_STORE := [
    I(0xbf, 3, 10, 0, 0), I(0x07, 3, 0, 0, -24), I(0xb7, 4, 0, 0, 0), I(0x85, 0, 0, 0, HELPER_UPDATE),
    I(0xb7, 0, 0, 0, 0), I(0x95, 0, 0, 0, 0)]

  /** The issue program, which has no jumps. */
  function IssueCode(startFd: int, fields: KeyFields): (r: seq<Instruction>)
    requires Supported(fields)
    ensures |r| == 17
  {
    KeyBlock(fields) + ISSUE_CLOCK + ArgumentBlock(startFd, -16) + ISSUE_STORE
  }

  method EmitIssueStore(builder: InstructionBuilder)
    requires builder.Valid()
    modifies builder
    ensures builder.Valid()
    ensures builder.instructions == old(builder.instructions) + ISSUE_STORE
    ensures builder.labels == old(builder.labels) && builder.fixups == old(builder.fixups)
  {
    builder.Emit(0xbf, 3, 10, 0, 0);
    builder.Emit(0x07, 3, 0, 0, -24);
    builder.Emit(0xb7, 4, 0, 0, 0);
    assert builder.instructions == old(builder.instructions) + ISSUE_STORE[..3];
    builder.Emit(0x85, 0, 0, 0, HELPER_UPDATE);
    builder.Emit(0xb7, 0, 0, 0, 0);
    builder.Emit(0x95, 0, 0, 0, 0);
  }

  method IssueLatencyProgram(startFd: int, fields: KeyFields) returns (r: Result<seq<Instruction>, ProgramError>)
    ensures r.Ok? <==> Supported(fields)
    ensures r.Ok? ==> r.value == IssueCode(startFd, fields)
  {
    var builder := new InstructionBuilder();
    builder.Emit(0xbf, 6, 1, 0, 0);
    var error := LoadContextKey(builder, fields);
    if error.Some? { return Err(error.value); }
    assert builder.instructions == KeyBlock(fields);
    builder.Emit(0x85, 0, 0, 0, HELPER_KTIME);
    builder.Emit(0x7b, 10, 0, -24, 0);
    assert builder.instructions == KeyBlock(fields) + ISSUE_CLOCK;
    EmitArguments(builder, startFd, -16);
    EmitIssueStore(builder);
    var code := builder.Finalize();
    return Ok(code.value);
  }

  lemma NextJump(n: nat)
    requires n < 23
    ensures Jumps(n) + [Fixup(JumpIndex(n), JumpLabel(n))] == Jumps(n + 1)
  {
  }

  method EmitDispatch(builder: InstructionBuilder)
    requires builder.Valid() && |builder.instructions| == 37 && builder.fixups == Jumps(3)
    modifies builder
    ensures builder.Valid() && builder.labels == old(builder.labels) && builder.fixups == Jumps(13)
    ensures builder.instructions == old(builder.instructions) + BucketTests(9) + [I(0x05, 0, 0, 0, 0)]
  {
    var index := 0;
    while index < |UPPER_NS|
      invariant 0 <= index <= 9 && builder.Valid()
      invariant builder.instructions == old(builder.instructions) + BucketTests(index)
      invariant builder.labels == old(builder.labels) && builder.fixups == Jumps(3 + index)
    {
      builder.Jump(0xa5, 7, 0, UPPER_NS[index], BucketLabel(index));
      assert BucketTests(index + 1) == BucketTests(index) + [I(0xa5, 7, 0, 0, UPPER_NS[index])];
      NextJump(3 + index);
      index := index + 1;
    }
    builder.Jump(0x05, 0, 0, 0, BucketLabel(BUCKET_COUNT - 1));
    NextJump(12);
  }

  method EmitBucketUpdate(builder: InstructionBuilder, index: nat)
    requires builder.Valid() && index < 10
    modifies builder
    ensures builder.Valid()
    ensures builder.instructions == old(builder.instructions) + BucketUpdate(index)
    ensures builder.labels == old(builder.labels)[BucketLabel(index) := |old(builder.instructions)|]
    ensures builder.fixups == old(builder.fixups) + [Fixup(|old(builder.instructions)| + 3, "exit")]
  {
    builder.Label(BucketLabel(index));
    var offset := ToI16(24 + index * 8);
    builder.Emit(0x79, 1, 8, offset, 0);
    builder.Emit(0x07, 1, 0, 0, 1);
    builder.Emit(0x7b, 8, 1, offset, 0);
    builder.Jump(0x05, 0, 0, 0, "exit");
  }

  method EmitBuckets(builder: InstructionBuilder)
    requires builder.Valid() && |builder.instructions| == 47 && builder.labels == BucketLabels(0)
    requires builder.fixups == Jumps(13)
    modifies builder
    ensures builder.Valid() && builder.labels == BucketLabels(10) && builder.fixups == Jumps(23)
    ensures builder.instructions == old(builder.instructions) + BucketUpdates(10)
  {
    var index := 0;
    while index < BUCKET_COUNT
      invariant 0 <= index <= 10 && builder.Valid()
      invariant builder.instructions == old(builder.instructions) + BucketUpdates(index)
      invariant builder.labels == BucketLabels(index) && builder.fixups == Jumps(13 + index)
    {
      EmitBucketUpdate(builder, index);
      OneMoreUpdate(index);
      NextJump(13 + index);
      index := index + 1;
    }
  }

  method EmitLookup(builder: InstructionBuilder, mapFd: int, keyOffset: i16)
    requires builder.Valid()
    modifies builder
    ensures builder.Valid()
    ensures builder.instructions == old(builder.instructions)
                                    + (ArgumentBlock(mapFd, keyOffset) + [I(0x85, 0, 0, 0, HELPER_LOOKUP), I(0x15, 0, 0, 0, 0)])
    ensures builder.labels == old(builder.labels)
    ensures builder.fixups == old(builder.fixups) + [Fixup(|old(builder.instructions)| + 5, "exit")]
  {
    EmitArguments(builder, mapFd, keyOffset);
    builder.Emit(0x85, 0, 0, 0, HELPER_LOOKUP);
    builder.Jump(0x15, 0, 0, 0, "exit");
  }

  method EmitLatency(builder: InstructionBuilder)
    requires builder.Valid()
    modifies builder
    ensures builder.Valid()
    ensures builder.instructions == old(builder.instructions) + LATENCY_BLOCK
    ensures builder.labels == old(builder.labels) && builder.fixups == old(builder.fixups)
  {
    builder.Emit(0x79, 7, 0, 0, 0);
    builder.Emit(0x85, 0, 0, 0, HELPER_KTIME);
    builder.Emit(0x1f, 0, 7, 0, 0);
    builder.Emit(0xbf, 7, 0, 0, 0);
  }

  method EmitHead(builder: InstructionBuilder, startFd: int, statsFd: int, fields: KeyFields)
    requires builder.Valid() && Supported(fields)
    requires builder.Contents() == Assembly(KeyBlock(fields), map[], [])
    modifies builder
    ensures builder.Valid()
    ensures builder.Contents() == Assembly(CompleteHead(startFd, statsFd, fields), map[], Jumps(3))
  {
    EmitLookup(builder, startFd, -16);
    EmitLatency(builder);
    EmitArguments(builder, startFd, -16);
    builder.Emit(0x85, 0, 0, 0, HELPER_DELETE);
    builder.Emit(0x62, 10, 0, -20, 0);
    assert builder.instructions == KeyBlock(fields) + LookupBlock(startFd) + LATENCY_BLOCK + DeleteBlock(startFd);
    EmitLookup(builder, statsFd, -20);
    EmitSummary(builder);
  }

  method EmitHistogram(builder: InstructionBuilder)
    requires builder.Valid() && |builder.instructions| == 37 && builder.labels == map[] && builder.fixups == Jumps(3)
    modifies builder
    ensures builder.Valid()
    ensures builder.instructions == old(builder.instructions) + BucketTests(9) + [I(0x05, 0, 0, 0, 0)] + BucketUpdates(10)
                                    + EXIT_BLOCK
    ensures builder.labels == BucketLabels(10)["exit" := 87]
    ensures builder.fixups == Jumps(23)
  {
    builder.Label("histogram");
    EmitDispatch(builder);
    EmitBuckets(builder);
    builder.Label("exit");
    builder.Emit(0xb7, 0, 0, 0, 0);
    builder.Emit(0x95, 0, 0, 0, 0);
  }

  method CompleteLatencyProgram(startFd: int, statsFd: int, fields: KeyFields)
    returns (r: Result<seq<Instruction>, ProgramError>)
    ensures r.Ok? <==> Supported(fields)
    ensures r.Ok? ==> r.value == CompleteCode(startFd, statsFd, fields)
  {
    var builder := new InstructionBuilder();
    builder.Emit(0xbf, 6, 1, 0, 0);
    var error := LoadContextKey(builder, fields);
    if error.Some? { return Err(error.value); }
    assert builder.instructions == KeyBlock(fields);
    EmitHead(builder, startFd, statsFd, fields);
    EmitHistogram(builder);
    assert builder.Contents() == CompleteAssembly(startFd, statsFd, fields);
    CompleteResolves(startFd, statsFd, fields);
    var code := builder.Finalize();
    return Ok(code.value);
  }
}
