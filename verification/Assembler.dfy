/** The builder that assembles BPF programs: it appends instructions, records label
    positions and unresolved jumps, and finally patches the jump offsets in place. */
module Assembler {
  import opened Words
  import opened Bpf

  datatype Fixup = Fixup(index: nat, name: string)

  /** What a builder has recorded. */
  datatype Assembly = Assembly(instructions: seq<Instruction>, labels: map<string, nat>, fixups: seq<Fixup>)

  /** The four calls that extend a program. */
  datatype BuildCall =
    | Emit(code: u8, dst: u8, src: u8, off: i16, imm: i32)
    | EmitJump(code: u8, dst: u8, src: u8, imm: i32, name: string)
    | EmitLoadMap(dst: u8, mapFd: int)
    | Label(name: string)

  datatype AssemblyError = MissingLabel(name: string) | OutOfRange(name: string)

  const NOTHING := Assembly([], map[], [])

  function Apply(a: Assembly, c: BuildCall): Assembly {
    match c
    case Emit(code, dst, src, off, imm) =>
      a.(instructions := a.instructions + [Instruction(code, Register(dst, src), off, imm)])
    case EmitJump(code, dst, src, imm, name) =>
      a.(instructions := a.instructions + [Instruction(code, Register(dst, src), 0, imm)],
         fixups := a.fixups + [Fixup(|a.instructions|, name)])
    case EmitLoadMap(dst, mapFd) =>
      a.(instructions := a.instructions + [Instruction(0x18, Register(dst, 1), 0, ToI32(mapFd)), Instruction(0, 0, 0, 0)])
    case Label(name) =>
      a.(labels := a.labels[name := |a.instructions|])
  }

  function Assemble(calls: seq<BuildCall>): Assembly {
    if calls == [] then NOTHING else Apply(Assemble(calls[..|calls| - 1]), calls[|calls| - 1])
  }

  predicate Resolvable(labels: map<string, nat>, f: Fixup) {
    f.name in labels && -0x8000 <= labels[f.name] - f.index - 1 < 0x8000
  }

  predicate AllResolvable(a: Assembly) {
    forall k :: 0 <= k < |a.fixups| ==> Resolvable(a.labels, a.fixups[k])
  }

  predicate WellFormed(a: Assembly) {
    && (forall k :: 0 <= k < |a.fixups| ==> a.fixups[k].index < |a.instructions|)
    && (forall j, k :: 0 <= j < k < |a.fixups| ==> a.fixups[j].index < a.fixups[k].index)
  }

  /** The instructions once the first k jumps are patched. */
  function Patched(a: Assembly, k: nat): (r: seq<Instruction>)
    requires WellFormed(a) && k <= |a.fixups|
    requires forall j :: 0 <= j < k ==> Resolvable(a.labels, a.fixups[j])
    ensures |r| == |a.instructions|
  {
    if k == 0 then a.instructions else
    var f := a.fixups[k - 1];
    assert Resolvable(a.labels, f);
    var r := Patched(a, k - 1);
    r[f.index := r[f.index].(off := a.labels[f.name] - f.index - 1)]
  }

  function Blame(labels: map<string, nat>, f: Fixup): AssemblyError
    requires !Resolvable(labels, f)
  {
    if f.name in labels then OutOfRange(f.name) else MissingLabel(f.name)
  }

  class InstructionBuilder {
    var instructions: seq<Instruction>
    var labels: map<string, nat>
    var fixups: seq<Fixup>

    function Contents(): Assembly
      reads this
    {
      Assembly(instructions, labels, fixups)
    }

    ghost predicate Valid()
      reads this
    {
      WellFormed(Contents())
    }

    constructor ()
      ensures Valid() && Contents() == NOTHING
    {
      instructions, labels, fixups := [], map[], [];
    }

    method Emit(code: u8, dst: u8, src: u8, off: i16, imm: i32)
      requires Valid()
      modifies this
      ensures Valid() && Contents() == Apply(old(Contents()), BuildCall.Emit(code, dst, src, off, imm))
    {
      instructions := instructions + [Instruction(code, Register(dst, src), off, imm)];
    }

    method LoadMap(dst: u8, mapFd: int)
      requires Valid()
      modifies this
      ensures Valid() && Contents() == Apply(old(Contents()), EmitLoadMap(dst, mapFd))
    {
      Emit(0x18, dst, 1, 0, ToI32(mapFd));
      Emit(0, 0, 0, 0, 0);
    }

    method Jump(code: u8, dst: u8, src: u8, imm: i32, name: string)
      requires Valid()
      modifies this
      ensures Valid() && Contents() == Apply(old(Contents()), EmitJump(code, dst, src, imm, name))
    {
      fixups := fixups + [Fixup(|instructions|, name)];
      instructions := instructions + [Instruction(code, Register(dst, src), 0, imm)];
    }

    method Label(name: string)
      requires Valid()
      modifies this
      ensures Valid() && Contents() == Apply(old(Contents()), BuildCall.Label(name))
    {
      labels := labels[name := |instructions|];
    }

    /** Patches every jump, or stops at the first one that cannot be resolved. */
    method Finalize() returns (r: Result<seq<Instruction>, AssemblyError>)
      requires Valid()
      modifies this
      ensures labels == old(labels) && fixups == old(fixups)
      ensures r.Ok? <==> AllResolvable(old(Contents()))
      ensures r.Ok? ==> r.value == instructions == Patched(old(Contents()), |fixups|)
      ensures r.Err? ==> exists k :: 0 <= k < |fixups| && !Resolvable(labels, fixups[k])
                                     && (forall j :: 0 <= j < k ==> Resolvable(labels, fixups[j]))
                                     && r.error == Blame(labels, fixups[k])
                                     && instructions == Patched(old(Contents()), k)
    {
      ghost var a := Contents();
      var k := 0;
      while k < |fixups|
        invariant 0 <= k <= |fixups|
        invariant labels == a.labels && fixups == a.fixups
        invariant forall j :: 0 <= j < k ==> Resolvable(labels, fixups[j])
        invariant instructions == Patched(a, k)
      {
        var f := fixups[k];
        if f.name !in labels {
          return Err(MissingLabel(f.name));
        }
        var offset := labels[f.name] - f.index - 1;
        if offset < -32768 || offset > 32767 {
          return Err(OutOfRange(f.name));
        }
        instructions := instructions[f.index := instructions[f.index].(off := offset)];
        k := k + 1;
      }
      return Ok(instructions);
    }
  }

  lemma {:induction false} AssembledIsWellFormed(calls: seq<BuildCall>)
    ensures WellFormed(Assemble(calls))
  {
    if calls == [] {
    } else {
      AssembledIsWellFormed(calls[..|calls| - 1]);
    }
  }

  /** Patching touches only the offsets of the recorded jumps. */
  lemma {:induction false} PatchedAt(a: Assembly, k: nat, i: nat)
    requires WellFormed(a) && k <= |a.fixups| && i < |a.instructions|
    requires forall j :: 0 <= j < k ==> Resolvable(a.labels, a.fixups[j])
    ensures forall j :: 0 <= j < k && a.fixups[j].index == i ==>
                          Patched(a, k)[i] == a.instructions[i].(off := a.labels[a.fixups[j].name] - i - 1)
    ensures (forall j :: 0 <= j < k ==> a.fixups[j].index != i) ==> Patched(a, k)[i] == a.instructions[i]
  {
    if k == 0 {
    } else {
      PatchedAt(a, k - 1, i);
    }
  }

  // ----- finalize succeeds exactly when the source program makes sense -----

  function Slots(c: BuildCall): nat {
    match c
    case Label(_) => 0
    case EmitLoadMap(_, _) => 2
    case _ => 1
  }

  /** The address of the i-th call: the slots taken by the calls before it. */
  function Address(calls: seq<BuildCall>, i: nat): nat
    requires i <= |calls|
  {
    if i == 0 then 0 else Address(calls, i - 1) + Slots(calls[i - 1])
  }

  /** Call j is the definition of the name that counts, the last one. */
  ghost predicate Defines(calls: seq<BuildCall>, j: nat, name: string) {
    j < |calls| && calls[j] == Label(name) && forall k :: j < k < |calls| ==> calls[k] != Label(name)
  }

  ghost predicate JumpResolves(calls: seq<BuildCall>, i: nat)
    requires i < |calls| && calls[i].EmitJump?
  {
    exists j :: 0 <= j < |calls| && Defines(calls, j, calls[i].name)
                && -0x8000 <= Address(calls, j) - Address(calls, i) - 1 < 0x8000
  }

  lemma {:induction false} AddressOfPrefix(calls: seq<BuildCall>, n: nat, i: nat)
    requires i <= n <= |calls|
    ensures Address(calls[..n], i) == Address(calls, i)
  {
    if i == 0 {
    } else {
      AddressOfPrefix(calls, n, i - 1);
    }
  }

  lemma {:induction false} AssembleAddresses(calls: seq<BuildCall>)
    ensures |Assemble(calls).instructions| == Address(calls, |calls|)
  {
    if calls == [] {
    } else {
      AssembleAddresses(calls[..|calls| - 1]);
      AddressOfPrefix(calls, |calls| - 1, |calls| - 1);
    }
  }

  lemma EarlierDefinition(calls: seq<BuildCall>, j: nat, name: string)
    requires j + 1 < |calls| && calls[|calls| - 1] != Label(name)
    ensures Defines(calls, j, name) <==> Defines(calls[..|calls| - 1], j, name)
    ensures Address(calls, j) == Address(calls[..|calls| - 1], j)
  {
    AddressOfPrefix(calls, |calls| - 1, j);
  }

  /** A name that some call defines is in the label table, at its last definition. */
  lemma {:induction false} DefinedIsLabelled(calls: seq<BuildCall>, j: nat, name: string)
    requires j < |calls| && Defines(calls, j, name)
    ensures name in Assemble(calls).labels && Assemble(calls).labels[name] == Address(calls, j)
  {
    var n := |calls| - 1;
    if j == n {
      AssembleAddresses(calls[..n]);
      AddressOfPrefix(calls, n, n);
    } else {
      EarlierDefinition(calls, j, name);
      DefinedIsLabelled(calls[..n], j, name);
    }
  }

  /** A name in the label table has a definition. */
  lemma {:induction false} LabelledIsDefined(calls: seq<BuildCall>, name: string) returns (j: nat)
    requires name in Assemble(calls).labels
    ensures j < |calls| && Defines(calls, j, name)
  {
    var n := |calls| - 1;
    if calls[n] == Label(name) {
      j := n;
    } else {
      j := LabelledIsDefined(calls[..n], name);
      EarlierDefinition(calls, j, name);
    }
  }

  /** Every jump call is recorded at its own address. */
  lemma {:induction false} JumpsAreRecorded(calls: seq<BuildCall>, i: nat)
    requires i < |calls| && calls[i].EmitJump?
    ensures Fixup(Address(calls, i), calls[i].name) in Assemble(calls).fixups
  {
    var n := |calls| - 1;
    var before := calls[..n];
    AddressOfPrefix(calls, n, i);
    if i < n {
      JumpsAreRecorded(before, i);
    } else {
      AssembleAddresses(before);
    }
  }

  /** Nothing else is recorded. */
  lemma {:induction false} RecordedAreJumps(calls: seq<BuildCall>, f: Fixup) returns (i: nat)
    requires f in Assemble(calls).fixups
    ensures i < |calls| && calls[i].EmitJump? && f == Fixup(Address(calls, i), calls[i].name)
  {
    var n := |calls| - 1;
    var before := calls[..n];
    if f in Assemble(before).fixups {
      i := RecordedAreJumps(before, f);
      AddressOfPrefix(calls, n, i);
    } else {
      i := n;
      AssembleAddresses(before);
      AddressOfPrefix(calls, n, n);
    }
  }

  lemma ResolvableIsJumpResolves(calls: seq<BuildCall>, i: nat)
    requires i < |calls| && calls[i].EmitJump?
    ensures Resolvable(Assemble(calls).labels, Fixup(Address(calls, i), calls[i].name)) <==> JumpResolves(calls, i)
  {
    if calls[i].name in Assemble(calls).labels {
      var j := LabelledIsDefined(calls, calls[i].name);
      DefinedIsLabelled(calls, j, calls[i].name);
    }
    if JumpResolves(calls, i) {
      var j :| 0 <= j < |calls| && Defines(calls, j, calls[i].name)
               && -0x8000 <= Address(calls, j) - Address(calls, i) - 1 < 0x8000;
      DefinedIsLabelled(calls, j, calls[i].name);
    }
  }

  /** With the contract of Finalize: it succeeds exactly when every jump names a
      defined label at a signed 16-bit distance. */
  lemma {:induction false} FinalizeSucceedsWhen(calls: seq<BuildCall>)
    ensures AllResolvable(Assemble(calls))
            <==> forall i :: 0 <= i < |calls| && calls[i].EmitJump? ==> JumpResolves(calls, i)
  {
    var a := Assemble(calls);
    forall i | 0 <= i < |calls| && calls[i].EmitJump?
      ensures Resolvable(a.labels, Fixup(Address(calls, i), calls[i].name)) <==> JumpResolves(calls, i)
    {
      ResolvableIsJumpResolves(calls, i);
    }
    if AllResolvable(a) {
      forall i | 0 <= i < |calls| && calls[i].EmitJump?
        ensures JumpResolves(calls, i)
      {
        JumpsAreRecorded(calls, i);
        assert Resolvable(a.labels, Fixup(Address(calls, i), calls[i].name));
      }
    }
    if forall i :: 0 <= i < |calls| && calls[i].EmitJump? ==> JumpResolves(calls, i) {
      forall k | 0 <= k < |a.fixups|
        ensures Resolvable(a.labels, a.fixups[k])
      {
        var i := RecordedAreJumps(calls, a.fixups[k]);
      }
    }
  }

  /** A jump that cannot be resolved is blamed on a missing label exactly when no call
      defines its name, and otherwise on its distance. */
  lemma {:induction false} BlameSays(calls: seq<BuildCall>, f: Fixup)
    requires !Resolvable(Assemble(calls).labels, f)
    ensures Blame(Assemble(calls).labels, f)
            == if Label(f.name) in calls then OutOfRange(f.name) else MissingLabel(f.name)
  {
    if f.name in Assemble(calls).labels {
      var j := LabelledIsDefined(calls, f.name);
      assert calls[j] == Label(f.name);
    } else if Label(f.name) in calls {
      var j := LastDefinition(calls, f.name);
      DefinedIsLabelled(calls, j, f.name);
    }
  }

  lemma {:induction false} LastDefinition(calls: seq<BuildCall>, name: string) returns (j: nat)
    requires Label(name) in calls
    ensures j < |calls| && Defines(calls, j, name)
  {
    var n := |calls| - 1;
    if calls[n] == Label(name) {
      j := n;
    } else {
      j := LastDefinition(calls[..n], name);
      EarlierDefinition(calls, j, name);
    }
  }

  // ----- the patched program runs like the labelled one -----

  /** The label of the latest jump recorded at an address. */
  function NameAt(fixups: seq<Fixup>, pc: nat): Option<string> {
    if fixups == [] then None
    else if fixups[|fixups| - 1].index == pc then Some(fixups[|fixups| - 1].name)
    else NameAt(fixups[..|fixups| - 1], pc)
  }

  lemma {:induction false} NameIsRecorded(fixups: seq<Fixup>, pc: nat) returns (k: nat)
    requires NameAt(fixups, pc).Some?
    ensures k < |fixups| && fixups[k] == Fixup(pc, NameAt(fixups, pc).value)
  {
    k := |fixups| - 1;
    if fixups[k].index == pc {
    } else {
      k := NameIsRecorded(fixups[..k], pc);
    }
  }

  lemma {:induction false} NoName(fixups: seq<Fixup>, pc: nat)
    ensures NameAt(fixups, pc).None? <==> forall k :: 0 <= k < |fixups| ==> fixups[k].index != pc
  {
    if fixups == [] {
    } else {
      var n := |fixups| - 1;
      NoName(fixups[..n], pc);
      if NameAt(fixups[..n], pc).None? {
        assert forall k :: 0 <= k < n ==> fixups[..n][k] == fixups[k];
      } else {
        var k := NameIsRecorded(fixups[..n], pc);
        assert fixups[k].index == pc;
      }
    }
  }

  /** A jump call recorded a fixup at the address. */
  predicate Recorded(a: Assembly, pc: nat) {
    NameAt(a.fixups, pc).Some?
  }

  /** The instruction at an address; a recorded jump has the offset of its label. */
  function Placed(a: Assembly, pc: nat): Instruction
    requires pc < |a.instructions|
  {
    var name := NameAt(a.fixups, pc);
    if name.Some? && Resolvable(a.labels, Fixup(pc, name.value)) then
      a.instructions[pc].(off := a.labels[name.value] - pc - 1)
    else a.instructions[pc]
  }

  /** The instruction at an address, and the next one for a possible second half. */
  function Around(a: Assembly, pc: nat): seq<Instruction>
    requires pc < |a.instructions|
  {
    if pc + 1 < |a.instructions| then [Placed(a, pc), Placed(a, pc + 1)] else [Placed(a, pc)]
  }

  /** Runs the labelled program: a recorded jump with a branch opcode goes straight to where
      its label stands; everything else runs as it is placed. */
  function LabelledStep(a: Assembly, env: Env, s: State): Outcome {
    if |s.regs| != 11 || s.pc >= |a.instructions| then Fault
    else if Recorded(a, s.pc) && IsBranch(Decode(a.instructions, s.pc)) then
      JumpStep(Decode(a.instructions, s.pc), a.labels, NameAt(a.fixups, s.pc).value, s)
    else Execute(Decode(Around(a, s.pc), 0), env, s)
  }

  function JumpStep(op: Op, labels: map<string, nat>, name: string, s: State): Outcome
    requires s.Valid()
  {
    if !IsBranch(op) || name !in labels || Taken(op, s).None? then Fault
    else Running(s.(pc := if Taken(op, s).value then labels[name] else s.pc + 1))
  }

  function LabelledRun(a: Assembly, env: Env, s: State, fuel: nat): Outcome {
    Iterate(t => LabelledStep(a, env, t), s, fuel)
  }

  /** Only the offset of a branch depends on the patch, not when it is taken. */
  lemma PatchedBranch(p: seq<Instruction>, q: seq<Instruction>, pc: nat, off: i16)
    requires pc < |p| == |q| && p[pc] == q[pc].(off := off) && IsBranch(Decode(q, pc))
    ensures IsBranch(Decode(p, pc)) && Decode(p, pc).off == off
    ensures forall s: State | s.Valid() :: Taken(Decode(p, pc), s) == Taken(Decode(q, pc), s)
  {
    PatchedOp(p, q, pc, off);
  }

  lemma PatchedOp(p: seq<Instruction>, q: seq<Instruction>, pc: nat, off: i16)
    requires pc < |p| == |q| && p[pc] == q[pc].(off := off) && IsBranch(Decode(q, pc))
    ensures Decode(p, pc) == match Decode(q, pc)
                             case Jump(_) => Jump(off)
                             case JumpEqImm(d, imm, _) => JumpEqImm(d, imm, off)
                             case JumpLtImm(d, imm, _) => JumpLtImm(d, imm, off)
                             case JumpLeReg(d, src, _) => JumpLeReg(d, src, off)
                             case other => other
  {
  }

  /** Decoding looks at one instruction, or at two for a 64-bit immediate. */
  lemma SameDecode(p: seq<Instruction>, i: nat, q: seq<Instruction>, j: nat)
    requires i < |p| && j < |q| && p[i] == q[j]
    requires i + 1 < |p| <==> j + 1 < |q|
    requires i + 1 < |p| ==> p[i + 1] == q[j + 1]
    ensures Decode(p, i) == Decode(q, j)
  {
  }

  /** Finalize puts every instruction in its place. */
  lemma PatchedIsPlaced(a: Assembly, pc: nat)
    requires WellFormed(a) && AllResolvable(a) && pc < |a.instructions|
    ensures Patched(a, |a.fixups|)[pc] == Placed(a, pc)
  {
    PatchedAt(a, |a.fixups|, pc);
    NoName(a.fixups, pc);
    if Recorded(a, pc) {
      var k := NameIsRecorded(a.fixups, pc);
      assert Resolvable(a.labels, a.fixups[k]);
    }
  }

  lemma StepAtFixup(a: Assembly, env: Env, s: State)
    requires WellFormed(a) && AllResolvable(a) && s.Valid() && s.pc < |a.instructions|
    requires Recorded(a, s.pc) && IsBranch(Decode(a.instructions, s.pc))
    ensures Step(Patched(a, |a.fixups|), env, s) == LabelledStep(a, env, s)
  {
    var p := Patched(a, |a.fixups|);
    var k := NameIsRecorded(a.fixups, s.pc);
    PatchedAt(a, |a.fixups|, s.pc);
    assert Resolvable(a.labels, a.fixups[k]);
    PatchedBranch(p, a.instructions, s.pc, a.labels[a.fixups[k].name] - s.pc - 1);
    var op := Decode(p, s.pc);
    assert Execute(op, env, s) == if Taken(op, s).Some? then Branch(s, Taken(op, s).value, op.off) else Fault;
  }

  lemma StepElsewhere(a: Assembly, env: Env, s: State)
    requires WellFormed(a) && AllResolvable(a) && s.Valid() && s.pc < |a.instructions|
    requires !(Recorded(a, s.pc) && IsBranch(Decode(a.instructions, s.pc)))
    ensures Step(Patched(a, |a.fixups|), env, s) == LabelledStep(a, env, s)
  {
    PatchedIsPlaced(a, s.pc);
    if s.pc + 1 < |a.instructions| { PatchedIsPlaced(a, s.pc + 1); }
    SameDecode(Patched(a, |a.fixups|), s.pc, Around(a, s.pc), 0);
  }

  lemma StepSimulates(a: Assembly, env: Env, s: State)
    requires WellFormed(a) && AllResolvable(a)
    ensures Step(Patched(a, |a.fixups|), env, s) == LabelledStep(a, env, s)
  {
    if s.Valid() && s.pc < |a.instructions| {
      if Recorded(a, s.pc) && IsBranch(Decode(a.instructions, s.pc)) {
        StepAtFixup(a, env, s);
      } else {
        StepElsewhere(a, env, s);
      }
    }
  }

  /** The flat program that Finalize returns simulates the labelled one step for step. */
  lemma PatchedRunsLikeLabelled(a: Assembly, env: Env, s: State, fuel: nat)
    requires WellFormed(a) && AllResolvable(a)
    ensures Run(Patched(a, |a.fixups|), env, s, fuel) == LabelledRun(a, env, s, fuel)
  {
    var p := Patched(a, |a.fixups|);
    forall t
      ensures Step(p, env, t) == LabelledStep(a, env, t)
    {
      StepSimulates(a, env, t);
    }
    SameSteps(t => Step(p, env, t), t => LabelledStep(a, env, t), s, fuel);
  }

  // ----- jump calls that are jumps -----

  /** A jump call with one of the four branch opcodes and zeros in its reserved fields. */
  predicate BranchCall(c: BuildCall) {
    c.EmitJump? && c.dst < 16 && c.src < 16 &&
    match c.code
    case 0x05 => c.dst == 0 && c.src == 0 && c.imm == 0
    case 0x15 => c.src == 0
    case 0xa5 => c.src == 0
    case 0xbd => c.imm == 0
    case _ => false
  }

  lemma BranchCallDecodes(p: seq<Instruction>, c: BuildCall)
    requires BranchCall(c)
    ensures IsBranch(Decode(p + [Instruction(c.code, Register(c.dst, c.src), 0, c.imm)], |p|))
  {
  }

  /** When every jump call is one, every recorded jump goes straight to its label. */
  lemma {:induction false} JumpsAreBranches(calls: seq<BuildCall>)
    requires forall i :: 0 <= i < |calls| && calls[i].EmitJump? ==> BranchCall(calls[i])
    ensures WellFormed(Assemble(calls))
    ensures forall k :: 0 <= k < |Assemble(calls).fixups| ==>
              IsBranch(Decode(Assemble(calls).instructions, Assemble(calls).fixups[k].index))
  {
    AssembledIsWellFormed(calls);
    if calls == [] {
    } else {
      var front, c := calls[..|calls| - 1], calls[|calls| - 1];
      var a, b := Assemble(front), Assemble(calls);
      JumpsAreBranches(front);
      if c.EmitJump? { BranchCallDecodes(a.instructions, c); }
      forall k | 0 <= k < |a.fixups|
        ensures IsBranch(Decode(b.instructions, a.fixups[k].index))
      {
        assert b.instructions[a.fixups[k].index] == a.instructions[a.fixups[k].index];
      }
    }
  }
}
