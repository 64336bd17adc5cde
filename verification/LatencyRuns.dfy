/** Whole measurements: the two programs run in any interleaving on any number of
    CPUs, entries may be evicted at any time, and the per-CPU cells are read back as
    bytes and folded into one result. */
module LatencyRuns {
  import opened Words
  import opened Logs
  import opened Bpf
  import opened LatencyPrograms
  import opened LatencyExecution

  /** The two map descriptors, the key layout of each tracepoint, and the loaded
      programs. */
  datatype Setup = Setup(order: ByteOrder, startFd: int, statsFd: int, issueFields: KeyFields, completeFields: KeyFields,
                         issueCode: seq<Instruction>, completeCode: seq<Instruction>)

  datatype Event =
    | IssueRun(cpu: nat, context: seq<u8>, now: u64)
    | CompleteRun(cpu: nat, context: seq<u8>, now: u64)
    | Evict(key: Key)

  /** The shared timestamp map and one statistics cell per CPU. */
  datatype World = World(entries: map<Key, u64>, cells: seq<Cell>)

  /** The loaded programs are the ones the builders produce, and the two maps are
      distinct. */
  ghost predicate Compiled(setup: Setup) {
    && ToI32(setup.startFd) != ToI32(setup.statsFd)
    && Supported(setup.issueFields) && setup.issueCode == IssueCode(setup.startFd, setup.issueFields)
    && Supported(setup.completeFields)
    && setup.completeCode == CompleteCode(setup.startFd, setup.statsFd, setup.completeFields)
  }

  ghost predicate CanRun(setup: Setup, k: Kernel, env: Env, fields: KeyFields) {
    && Wired(k, setup.startFd, setup.statsFd)
    && Readable(env.context, fields.dev) && Readable(env.context, fields.sector)
  }

  /** Each loaded program halts with its effect. */
  ghost predicate ValidSetup(setup: Setup) {
    && ToI32(setup.startFd) != ToI32(setup.statsFd)
    && (forall k, env | CanRun(setup, k, env, setup.issueFields) ::
          Run(setup.issueCode, env, Start(k), |setup.issueCode|)
          == Halted(0, IssueEffect(k, KeyOf(env.order, env.context, setup.issueFields), env.now)))
    && (forall k, env | CanRun(setup, k, env, setup.completeFields) ::
          Run(setup.completeCode, env, Start(k), |setup.completeCode|)
          == Halted(0, CompleteEffect(k, KeyOf(env.order, env.context, setup.completeFields), env.now)))
  }

  lemma CompiledIsValid(setup: Setup)
    requires Compiled(setup)
    ensures ValidSetup(setup)
  {
    forall k, env | CanRun(setup, k, env, setup.issueFields)
      ensures Run(setup.issueCode, env, Start(k), |setup.issueCode|)
              == Halted(0, IssueEffect(k, KeyOf(env.order, env.context, setup.issueFields), env.now))
    {
      IssueIsCorrect(setup.startFd, setup.statsFd, setup.issueFields, env, k, |setup.issueCode|);
    }
    forall k, env | CanRun(setup, k, env, setup.completeFields)
      ensures Run(setup.completeCode, env, Start(k), |setup.completeCode|)
              == Halted(0, CompleteEffect(k, KeyOf(env.order, env.context, setup.completeFields), env.now))
    {
      CompleteIsCorrect(setup.startFd, setup.statsFd, setup.completeFields, env, k, |setup.completeCode|);
    }
  }

  predicate ValidEvent(setup: Setup, cpus: nat, e: Event) {
    match e
    case IssueRun(cpu, context, _) =>
      cpu < cpus && Readable(context, setup.issueFields.dev) && Readable(context, setup.issueFields.sector)
    case CompleteRun(cpu, context, _) =>
      cpu < cpus && Readable(context, setup.completeFields.dev) && Readable(context, setup.completeFields.sector)
    case Evict(_) => true
  }

  predicate ValidEvents(setup: Setup, cpus: nat, events: seq<Event>) {
    forall i :: 0 <= i < |events| ==> ValidEvent(setup, cpus, events[i])
  }

  /** What a program running on one CPU sees. */
  function View(setup: Setup, w: World, cpu: nat): Kernel
    requires cpu < |w.cells|
  {
    Kernel(ToI32(setup.startFd), w.entries, ToI32(setup.statsFd), [w.cells[cpu]])
  }

  /** Runs one event's bytecode to its end. A run that does not halt, or that would
      change the set of cells, leaves the world alone. */
  function RunProgram(setup: Setup, w: World, cpu: nat, code: seq<Instruction>, env: Env): (r: World)
    requires cpu < |w.cells|
    ensures |r.cells| == |w.cells|
  {
    match Run(code, env, Start(View(setup, w, cpu)), |code|)
    case Halted(_, k) => if |k.cells| == 1 then World(k.entries, w.cells[cpu := k.cells[0]]) else w
    case _ => w
  }

  function RunEvent(setup: Setup, w: World, e: Event): (r: World)
    requires ValidEvent(setup, |w.cells|, e)
    ensures |r.cells| == |w.cells|
  {
    match e
    case IssueRun(cpu, context, now) =>
      RunProgram(setup, w, cpu, setup.issueCode, Env(setup.order, context, now))
    case CompleteRun(cpu, context, now) =>
      RunProgram(setup, w, cpu, setup.completeCode, Env(setup.order, context, now))
    case Evict(key) => w.(entries := w.entries - {key})
  }

  function EmptyCell(): (c: Cell)
    ensures |c| == CELL_WORDS
  {
    seq(CELL_WORDS, _ => 0)
  }

  function Initial(cpus: nat): World {
    World(map[], seq(cpus, _ => EmptyCell()))
  }

  function RunAll(setup: Setup, cpus: nat, events: seq<Event>): (w: World)
    requires ValidEvents(setup, cpus, events)
    ensures |w.cells| == cpus
  {
    if events == [] then Initial(cpus)
    else RunEvent(setup, RunAll(setup, cpus, events[..|events| - 1]), events[|events| - 1])
  }

  // ----- the reference: what a log of the events says -----

  function EventKey(setup: Setup, cpus: nat, e: Event): Key
    requires ValidEvent(setup, cpus, e)
  {
    match e
    case IssueRun(_, context, _) => KeyOf(setup.order, context, setup.issueFields)
    case CompleteRun(_, context, _) => KeyOf(setup.order, context, setup.completeFields)
    case Evict(key) => key
  }

  /** The time of the latest issue of a key that no completion has consumed and no
      eviction has dropped, found by looking backwards. */
  function Pending(setup: Setup, cpus: nat, events: seq<Event>, key: Key): Option<u64>
    requires ValidEvents(setup, cpus, events)
  {
    if events == [] then None else
    var e := events[|events| - 1];
    if EventKey(setup, cpus, e) != key then Pending(setup, cpus, events[..|events| - 1], key)
    else if e.IssueRun? then Some(e.now) else None
  }

  /** The latency a completion measures when its request is pending since a time. */
  function Measured(e: Event, pending: Option<u64>): seq<u64> {
    if e.CompleteRun? && pending.Some? then [Wrap(e.now as int - pending.value)] else []
  }

  /** The latencies measured: one for each completion of a pending request. */
  function Latencies(setup: Setup, cpus: nat, events: seq<Event>): seq<u64>
    requires ValidEvents(setup, cpus, events)
  {
    if events == [] then [] else
    var before, e := events[..|events| - 1], events[|events| - 1];
    Latencies(setup, cpus, before) + Measured(e, Pending(setup, cpus, before, EventKey(setup, cpus, e)))
  }

  function CountIn(xs: seq<u64>, bucket: nat): nat
    requires bucket < BUCKET_COUNT
  {
    if xs == [] then 0
    else CountIn(xs[..|xs| - 1], bucket) + (if InBucket(xs[|xs| - 1], bucket) then 1 else 0)
  }

  // ----- folding the cells -----

  predicate CellsOk(cells: seq<Cell>) {
    forall i :: 0 <= i < |cells| ==> |cells[i]| == CELL_WORDS
  }

  function SumWord(cells: seq<Cell>, w: nat): nat
    requires CellsOk(cells) && w < CELL_WORDS
  {
    if cells == [] then 0 else SumWord(cells[..|cells| - 1], w) + cells[|cells| - 1][w]
  }

  function MaxWord(cells: seq<Cell>, w: nat): u64
    requires CellsOk(cells) && w < CELL_WORDS
  {
    if cells == [] then 0 else Max(MaxWord(cells[..|cells| - 1], w), cells[|cells| - 1][w])
  }

  lemma {:induction false} SumWordUpdate(cells: seq<Cell>, c: nat, cell: Cell, w: nat)
    requires CellsOk(cells) && c < |cells| && |cell| == CELL_WORDS && w < CELL_WORDS
    ensures SumWord(cells[c := cell], w) == SumWord(cells, w) - cells[c][w] + cell[w]
  {
    var n := |cells| - 1;
    if c == n {
      assert cells[c := cell][..n] == cells[..n];
    } else {
      assert cells[c := cell][..n] == cells[..n][c := cell];
      SumWordUpdate(cells[..n], c, cell, w);
    }
  }

  lemma {:induction false} MaxWordUpdate(cells: seq<Cell>, c: nat, cell: Cell, w: nat, x: u64)
    requires CellsOk(cells) && c < |cells| && |cell| == CELL_WORDS && w < CELL_WORDS
    requires cell[w] == Max(cells[c][w], x)
    ensures MaxWord(cells[c := cell], w) == Max(MaxWord(cells, w), x)
  {
    var n := |cells| - 1;
    if c == n {
      assert cells[c := cell][..n] == cells[..n];
    } else {
      assert cells[c := cell][..n] == cells[..n][c := cell];
      MaxWordUpdate(cells[..n], c, cell, w, x);
    }
  }

  /** The cells together account for a list of latencies. */
  ghost predicate Accounts(cells: seq<Cell>, xs: seq<u64>)
    requires CellsOk(cells)
  {
    && Wrap(SumWord(cells, 0)) == Wrap(|xs|)
    && Wrap(SumWord(cells, 1)) == Wrap(Sum(xs))
    && MaxWord(cells, 2) == Maximum(xs)
    && forall b :: 0 <= b < BUCKET_COUNT ==> Wrap(SumWord(cells, 3 + b)) == Wrap(CountIn(xs, b))
  }

  /** Moving a word by d, with wrap-around, moves the wrapped sum by d. */
  lemma WrappedMove(total: int, word: u64, d: int, log: int, totalAfter: int, logAfter: int)
    requires Wrap(total) == Wrap(log)
    requires totalAfter == total - word + Wrap(word as int + d) && logAfter == log + d
    ensures Wrap(totalAfter) == Wrap(logAfter)
  {
    WrapAdd(total - word, word as int + d);
    WrapAdd(total, d);
    WrapAdd(log, d);
    assert total - word + (word as int + d) == total + d;
  }

  lemma RecordedBucket(cell: Cell, x: u64, b: nat)
    requires |cell| == CELL_WORDS && b < BUCKET_COUNT
    ensures Record(cell, x)[3 + b] == if b == BucketOf(x) then Wrap(cell[3 + b] as int + 1) else cell[3 + b]
  {
  }

  lemma CountOneIn(xs: seq<u64>, x: u64, b: nat)
    requires b < BUCKET_COUNT
    ensures CountIn(xs + [x], b) == CountIn(xs, b) + (if b == BucketOf(x) then 1 else 0)
  {
    assert (xs + [x])[..|xs|] == xs;
    OneBucket(x, b);
  }

  lemma BucketAccounts(cells: seq<Cell>, c: nat, cell: Cell, x: u64, xs: seq<u64>, b: nat)
    requires CellsOk(cells) && c < |cells| && |cell| == CELL_WORDS && b < BUCKET_COUNT
    requires cell[3 + b] == if b == BucketOf(x) then Wrap(cells[c][3 + b] as int + 1) else cells[c][3 + b]
    requires Wrap(SumWord(cells, 3 + b)) == Wrap(CountIn(xs, b))
    ensures Wrap(SumWord(cells[c := cell], 3 + b)) == Wrap(CountIn(xs + [x], b))
  {
    CountOneIn(xs, x, b);
    SumWordUpdate(cells, c, cell, 3 + b);
    BucketMove(SumWord(cells, 3 + b), cells[c][3 + b], cell[3 + b], CountIn(xs, b),
               SumWord(cells[c := cell], 3 + b), CountIn(xs + [x], b), b == BucketOf(x));
  }

  lemma BucketMove(total: int, word: u64, wordAfter: u64, log: int, totalAfter: int, logAfter: int, hit: bool)
    requires Wrap(total) == Wrap(log) && totalAfter == total - word + wordAfter
    requires wordAfter == (if hit then Wrap(word as int + 1) else word) && logAfter == log + (if hit then 1 else 0)
    ensures Wrap(totalAfter) == Wrap(logAfter)
  {
    if hit { WrappedMove(total, word, 1, log, totalAfter, logAfter); }
  }

  lemma RecordAccounts(cells: seq<Cell>, c: nat, x: u64, xs: seq<u64>)
    requires CellsOk(cells) && c < |cells| && Accounts(cells, xs)
    ensures Accounts(cells[c := Record(cells[c], x)], xs + [x])
  {
    var cell, ys := Record(cells[c], x), xs + [x];
    assert ys[..|ys| - 1] == xs;
    SumWordUpdate(cells, c, cell, 0);
    WrappedMove(SumWord(cells, 0), cells[c][0], 1, |xs|, SumWord(cells[c := cell], 0), |ys|);
    SumWordUpdate(cells, c, cell, 1);
    WrappedMove(SumWord(cells, 1), cells[c][1], x, Sum(xs), SumWord(cells[c := cell], 1), Sum(ys));
    MaxWordUpdate(cells, c, cell, 2, x);
    forall b | 0 <= b < BUCKET_COUNT
      ensures Wrap(SumWord(cells[c := cell], 3 + b)) == Wrap(CountIn(ys, b))
    {
      RecordedBucket(cells[c], x, b);
      BucketAccounts(cells, c, cell, x, xs, b);
    }
  }

  lemma {:induction false} NothingAccounted(cpus: nat)
    ensures CellsOk(Initial(cpus).cells) && Accounts(Initial(cpus).cells, [])
  {
    forall w | 0 <= w < CELL_WORDS
      ensures SumWord(Initial(cpus).cells, w) == 0 && MaxWord(Initial(cpus).cells, w) == 0
    {
      NoWord(cpus, w);
    }
  }

  lemma {:induction false} NoWord(cpus: nat, w: nat)
    requires w < CELL_WORDS
    ensures SumWord(Initial(cpus).cells, w) == 0 && MaxWord(Initial(cpus).cells, w) == 0
  {
    if cpus == 0 {
    } else {
      assert Initial(cpus).cells[..cpus - 1] == Initial(cpus - 1).cells;
      NoWord(cpus - 1, w);
    }
  }

  // ----- running the bytecode agrees with the log -----

  /** What one event does, without the bytecode. */
  function EventEffect(setup: Setup, w: World, e: Event): (r: World)
    requires CellsOk(w.cells) && ValidEvent(setup, |w.cells|, e)
    ensures CellsOk(r.cells) && |r.cells| == |w.cells|
  {
    var key := EventKey(setup, |w.cells|, e);
    match e
    case IssueRun(_, _, now) => w.(entries := w.entries[key := now])
    case CompleteRun(cpu, _, now) =>
      if key !in w.entries then w
      else World(w.entries - {key}, w.cells[cpu := Record(w.cells[cpu], Wrap(now as int - w.entries[key]))])
    case Evict(_) => w.(entries := w.entries - {key})
  }

  function EffectAll(setup: Setup, cpus: nat, events: seq<Event>): (w: World)
    requires ValidEvents(setup, cpus, events)
    ensures |w.cells| == cpus && CellsOk(w.cells)
  {
    if events == [] then Initial(cpus)
    else EventEffect(setup, EffectAll(setup, cpus, events[..|events| - 1]), events[|events| - 1])
  }

  lemma ProgramEffect(setup: Setup, w: World, cpu: nat, code: seq<Instruction>, env: Env, k: Kernel, cell: Cell)
    requires cpu < |w.cells|
    requires Run(code, env, Start(View(setup, w, cpu)), |code|) == Halted(0, k) && k.cells == [cell]
    ensures RunProgram(setup, w, cpu, code, env) == World(k.entries, w.cells[cpu := cell])
  {
  }

  /** The completion program's effect on the current CPU's only cell. */
  lemma OneCellEffect(k: Kernel, key: Key, now: u64, cell: Cell)
    requires k.cells == [cell] && |cell| == CELL_WORDS
    ensures var r := CompleteEffect(k, key, now);
            if key in k.entries
            then r.entries == k.entries - {key} && r.cells == [Record(cell, Wrap(now as int - k.entries[key]))]
            else r == k
  {
  }

  lemma IssueRunIsEffect(setup: Setup, w: World, e: Event)
    requires ValidSetup(setup) && CellsOk(w.cells) && ValidEvent(setup, |w.cells|, e) && e.IssueRun?
    ensures RunEvent(setup, w, e) == EventEffect(setup, w, e)
  {
    var k, env, key := View(setup, w, e.cpu), Env(setup.order, e.context, e.now), EventKey(setup, |w.cells|, e);
    assert w.cells[e.cpu := w.cells[e.cpu]] == w.cells;
    assert CanRun(setup, k, env, setup.issueFields);
    ProgramEffect(setup, w, e.cpu, setup.issueCode, env, IssueEffect(k, key, e.now), w.cells[e.cpu]);
  }

  lemma CompleteRunIsEffect(setup: Setup, w: World, e: Event)
    requires ValidSetup(setup) && CellsOk(w.cells) && ValidEvent(setup, |w.cells|, e) && e.CompleteRun?
    ensures RunEvent(setup, w, e) == EventEffect(setup, w, e)
  {
    var k, env, key := View(setup, w, e.cpu), Env(setup.order, e.context, e.now), EventKey(setup, |w.cells|, e);
    assert w.cells[e.cpu := w.cells[e.cpu]] == w.cells;
    assert CanRun(setup, k, env, setup.completeFields);
    var after := CompleteEffect(k, key, e.now);
    OneCellEffect(k, key, e.now, w.cells[e.cpu]);
    ProgramEffect(setup, w, e.cpu, setup.completeCode, env, after, after.cells[0]);
  }

  lemma RunEventIsEffect(setup: Setup, w: World, e: Event)
    requires ValidSetup(setup) && CellsOk(w.cells) && ValidEvent(setup, |w.cells|, e)
    ensures RunEvent(setup, w, e) == EventEffect(setup, w, e)
  {
    match e
    case IssueRun(_, _, _) => IssueRunIsEffect(setup, w, e);
    case CompleteRun(_, _, _) => CompleteRunIsEffect(setup, w, e);
    case Evict(_) =>
  }

  /** Running the bytecode, event after event, has the effects in sequence. */
  lemma {:induction false} RunAllIsEffectAll(setup: Setup, cpus: nat, events: seq<Event>)
    requires ValidSetup(setup) && ValidEvents(setup, cpus, events)
    ensures RunAll(setup, cpus, events) == EffectAll(setup, cpus, events)
  {
    if events == [] {
    } else {
      RunAllIsEffectAll(setup, cpus, events[..|events| - 1]);
      RunEventIsEffect(setup, EffectAll(setup, cpus, events[..|events| - 1]), events[|events| - 1]);
    }
  }

  lemma {:induction false} EntriesArePending(setup: Setup, cpus: nat, events: seq<Event>, key: Key)
    requires ValidEvents(setup, cpus, events)
    ensures var entries := EffectAll(setup, cpus, events).entries;
            (if key in entries then Some(entries[key]) else None) == Pending(setup, cpus, events, key)
  {
    if events == [] {
    } else {
      EntriesArePending(setup, cpus, events[..|events| - 1], key);
    }
  }

  /** One event keeps the cells accounting for the latencies measured. */
  lemma EventAccounts(setup: Setup, w: World, e: Event, xs: seq<u64>, pending: Option<u64>)
    requires CellsOk(w.cells) && Accounts(w.cells, xs) && ValidEvent(setup, |w.cells|, e)
    requires var key := EventKey(setup, |w.cells|, e);
             pending == if key in w.entries then Some(w.entries[key]) else None
    ensures Accounts(EventEffect(setup, w, e).cells, xs + Measured(e, pending))
  {
    if e.CompleteRun? && pending.Some? {
      RecordAccounts(w.cells, e.cpu, Wrap(e.now as int - pending.value), xs);
    } else {
      assert xs + Measured(e, pending) == xs;
    }
  }

  lemma {:induction false} CellsAccount(setup: Setup, cpus: nat, events: seq<Event>)
    requires ValidEvents(setup, cpus, events)
    ensures Accounts(EffectAll(setup, cpus, events).cells, Latencies(setup, cpus, events))
  {
    if events == [] {
      NothingAccounted(cpus);
    } else {
      var before, e := events[..|events| - 1], events[|events| - 1];
      var key := EventKey(setup, cpus, e);
      CellsAccount(setup, cpus, before);
      EntriesArePending(setup, cpus, before, key);
      EventAccounts(setup, EffectAll(setup, cpus, before), e, Latencies(setup, cpus, before),
                    Pending(setup, cpus, before, key));
    }
  }

  /** After any interleaving of bytecode runs, the map holds exactly the pending issues
      and the cells account for exactly the measured latencies. */
  lemma RunsAgreeWithLog(setup: Setup, cpus: nat, events: seq<Event>)
    requires Compiled(setup) && ValidEvents(setup, cpus, events)
    ensures var w := RunAll(setup, cpus, events);
            && CellsOk(w.cells) && Accounts(w.cells, Latencies(setup, cpus, events))
            && forall key :: (if key in w.entries then Some(w.entries[key]) else None) == Pending(setup, cpus, events, key)
  {
    CompiledIsValid(setup);
    RunAllIsEffectAll(setup, cpus, events);
    CellsAccount(setup, cpus, events);
    forall key
      ensures var entries := RunAll(setup, cpus, events).entries;
              (if key in entries then Some(entries[key]) else None) == Pending(setup, cpus, events, key)
    {
      EntriesArePending(setup, cpus, events, key);
    }
  }

  // ----- reading the cells back -----

  datatype LatencyResult = LatencyResult(
    duration: int, completedRequests: u64, totalLatencyNs: u64, maxLatencyNs: u64, histogram: seq<u64>)

  datatype StatsError = InvalidBuffer

  const STRIDE: nat := 104

  function Word(order: ByteOrder, data: seq<u8>, at: nat): (r: u64)
    requires at + 8 <= |data|
  {
    NativeBound(order, data[at..at + 8]);
    Pow256Is64(8);
    Native(order, data[at..at + 8])
  }

  /** The thirteen words of the value at an address. */
  function CellAt(order: ByteOrder, data: seq<u8>, base: nat): (cell: Cell)
    requires base + STRIDE <= |data|
    ensures |cell| == CELL_WORDS
  {
    seq(CELL_WORDS, j requires 0 <= j < CELL_WORDS => Word(order, data, base + 8 * j))
  }

  /** The per-CPU cells a buffer holds. */
  function DecodeCells(order: ByteOrder, data: seq<u8>, cpus: nat): (cells: seq<Cell>)
    requires STRIDE * cpus <= |data|
    ensures |cells| == cpus && CellsOk(cells)
  {
    seq(cpus, c requires 0 <= c < cpus => CellAt(order, data, STRIDE * c))
  }

  /** Word j of the cell of CPU c, at its place in the buffer. */
  lemma WordIsAt(order: ByteOrder, data: seq<u8>, cpus: nat, c: nat, j: nat)
    requires 104 * cpus <= |data| && c < cpus && j < 13
    ensures DecodeCells(order, data, cpus)[c][j] == Native(order, data[104 * c + 8 * j..104 * c + 8 * j + 8])
  {
  }

  /** The buffer's contents are the wrapped sums and the maximum of its cells. */
  ghost predicate Folds(r: LatencyResult, duration: int, cells: seq<Cell>)
    requires CellsOk(cells)
  {
    && r.duration == duration
    && r.completedRequests == Wrap(SumWord(cells, 0))
    && r.totalLatencyNs == Wrap(SumWord(cells, 1))
    && r.maxLatencyNs == MaxWord(cells, 2)
    && |r.histogram| == BUCKET_COUNT
    && forall b :: 0 <= b < BUCKET_COUNT ==> r.histogram[b] == Wrap(SumWord(cells, 3 + b))
  }

  lemma PrefixSums(cells: seq<Cell>, c: nat, w: nat)
    requires CellsOk(cells) && c < |cells| && w < CELL_WORDS
    ensures SumWord(cells[..c + 1], w) == SumWord(cells[..c], w) + cells[c][w]
    ensures MaxWord(cells[..c + 1], w) == Max(MaxWord(cells[..c], w), cells[c][w])
    ensures Wrap(Wrap(SumWord(cells[..c], w)) as int + cells[c][w]) == Wrap(SumWord(cells[..c + 1], w))
  {
    assert cells[..c + 1][..c] == cells[..c];
    WrapAdd(SumWord(cells[..c], w), cells[c][w]);
  }

  lemma DecodedCell(order: ByteOrder, data: seq<u8>, cpus: nat, c: nat)
    requires STRIDE * cpus <= |data| && c < cpus
    ensures DecodeCells(order, data, cpus)[c] == CellAt(order, data, STRIDE * c)
  {
  }

  /** Adds the ten bucket words of one CPU's value to the histogram. */
  method AddHistogram(order: ByteOrder, data: seq<u8>, base: nat, histogram: seq<u64>) returns (h: seq<u64>)
    requires base + STRIDE <= |data| && |histogram| == BUCKET_COUNT
    ensures |h| == BUCKET_COUNT
    ensures forall b :: 0 <= b < BUCKET_COUNT ==> h[b] == Wrap(histogram[b] as int + CellAt(order, data, base)[3 + b])
  {
    h := histogram;
    var bucket := 0;
    while bucket < BUCKET_COUNT
      invariant 0 <= bucket <= BUCKET_COUNT && |h| == BUCKET_COUNT
      invariant forall b :: 0 <= b < bucket ==> h[b] == Wrap(histogram[b] as int + CellAt(order, data, base)[3 + b])
      invariant forall b :: bucket <= b < BUCKET_COUNT ==> h[b] == histogram[b]
    {
      var offset := 24 + bucket * 8;
      assert CellAt(order, data, base)[3 + bucket] == Word(order, data, base + offset);
      h := h[bucket := Wrap(h[bucket] as int + Word(order, data, base + offset))];
      bucket := bucket + 1;
    }
  }

  /** next is r with one cell added. */
  ghost predicate Added(r: LatencyResult, next: LatencyResult, cell: Cell)
    requires |cell| == CELL_WORDS
  {
    && next.duration == r.duration && |r.histogram| == |next.histogram| == BUCKET_COUNT
    && next.completedRequests == Wrap(r.completedRequests as int + cell[0])
    && next.totalLatencyNs == Wrap(r.totalLatencyNs as int + cell[1])
    && next.maxLatencyNs == Max(r.maxLatencyNs, cell[2])
    && forall b :: 0 <= b < BUCKET_COUNT ==> next.histogram[b] == Wrap(r.histogram[b] as int + cell[3 + b])
  }

  /** Adds one CPU's value, at base, to the result. */
  method AddCpu(order: ByteOrder, r: LatencyResult, data: seq<u8>, base: nat) returns (next: LatencyResult)
    requires base + STRIDE <= |data| && |r.histogram| == BUCKET_COUNT
    ensures Added(r, next, CellAt(order, data, base))
  {
    var maxLatency := Word(order, data, base + 16);
    var histogram := AddHistogram(order, data, base, r.histogram);
    next := LatencyResult(
      r.duration,
      Wrap(r.completedRequests as int + Word(order, data, base)),
      Wrap(r.totalLatencyNs as int + Word(order, data, base + 8)),
      if maxLatency > r.maxLatencyNs then maxLatency else r.maxLatencyNs,
      histogram);
  }

  lemma FoldWord(x: u64, next: u64, cells: seq<Cell>, c: nat, w: nat)
    requires CellsOk(cells) && c < |cells| && w < CELL_WORDS
    requires x == Wrap(SumWord(cells[..c], w)) && next == Wrap(x as int + cells[c][w])
    ensures next == Wrap(SumWord(cells[..c + 1], w))
  {
    PrefixSums(cells, c, w);
  }

  lemma FoldHistogram(r: LatencyResult, next: LatencyResult, cells: seq<Cell>, c: nat)
    requires CellsOk(cells) && c < |cells| && Folds(r, r.duration, cells[..c]) && Added(r, next, cells[c])
    ensures forall b :: 0 <= b < BUCKET_COUNT ==> next.histogram[b] == Wrap(SumWord(cells[..c + 1], 3 + b))
  {
    forall b | 0 <= b < BUCKET_COUNT
      ensures next.histogram[b] == Wrap(SumWord(cells[..c + 1], 3 + b))
    {
      FoldWord(r.histogram[b], next.histogram[b], cells, c, 3 + b);
    }
  }

  /** One more CPU's value folded in. */
  lemma FoldOne(r: LatencyResult, next: LatencyResult, cells: seq<Cell>, c: nat)
    requires CellsOk(cells) && c < |cells| && Folds(r, r.duration, cells[..c]) && Added(r, next, cells[c])
    ensures Folds(next, r.duration, cells[..c + 1])
  {
    FoldWord(r.completedRequests, next.completedRequests, cells, c, 0);
    FoldWord(r.totalLatencyNs, next.totalLatencyNs, cells, c, 1);
    PrefixSums(cells, c, 2);
    FoldHistogram(r, next, cells, c);
  }

  method AggregateLatencyStats(order: ByteOrder, duration: int, data: seq<u8>, cpuCount: int)
    returns (r: Result<LatencyResult, StatsError>)
    ensures r.Ok? <==> 0 < cpuCount && STRIDE * cpuCount <= |data|
    ensures r.Ok? ==> Folds(r.value, duration, DecodeCells(order, data, cpuCount))
  {
    if cpuCount <= 0 || |data| < STRIDE * cpuCount {
      return Err(InvalidBuffer);
    }
    ghost var cells := DecodeCells(order, data, cpuCount);
    var result := LatencyResult(duration, 0, 0, 0, seq(BUCKET_COUNT, _ => 0));
    var cpu := 0;
    while cpu < cpuCount
      invariant 0 <= cpu <= cpuCount
      invariant Folds(result, duration, cells[..cpu])
    {
      var next := AddCpu(order, result, data, cpu * STRIDE);
      DecodedCell(order, data, cpuCount, cpu);
      FoldOne(result, next, cells, cpu);
      result := next;
      cpu := cpu + 1;
    }
    assert cells[..cpuCount] == cells;
    return Ok(result);
  }

  // ----- how the kernel writes the cells -----

  function Digits(n: nat, bytes: nat): (r: seq<u8>)
    ensures |r| == bytes
  {
    if bytes == 0 then [] else [n % 256] + Digits(n / 256, bytes - 1)
  }

  lemma {:induction false} DigitsRoundTrip(n: nat, bytes: nat)
    requires n < Pow256(bytes)
    ensures LittleEndian(Digits(n, bytes)) == n
  {
    if bytes == 0 {
    } else {
      assert n / 256 < Pow256(bytes - 1);
      DigitsRoundTrip(n / 256, bytes - 1);
      assert Digits(n, bytes)[1..] == Digits(n / 256, bytes - 1);
    }
  }

  lemma WordDigits(n: u64, bytes: nat)
    requires bytes == 8
    ensures LittleEndian(Digits(n, bytes)) == n
  {
    assert Pow256(8) == TWO_64 by {
      assert Pow256(4) == 0x1_0000_0000;
    }
    DigitsRoundTrip(n, bytes);
  }

  lemma {:induction false} ReversedAppend(a: seq<u8>, b: seq<u8>)
    ensures Reversed(a + b) == Reversed(b) + Reversed(a)
  {
    if a == [] {
      assert a + b == b;
    } else {
      ReversedAppend(a[1..], b);
      assert (a + b)[1..] == a[1..] + b;
    }
  }

  lemma {:induction false} ReversedTwice(bytes: seq<u8>)
    ensures Reversed(Reversed(bytes)) == bytes
  {
    if bytes == [] {
    } else {
      ReversedTwice(bytes[1..]);
      ReversedAppend(Reversed(bytes[1..]), [bytes[0]]);
      assert Reversed([bytes[0]]) == [bytes[0]];
      assert bytes == [bytes[0]] + bytes[1..];
    }
  }

  function EncodeWord(order: ByteOrder, n: u64): (r: seq<u8>)
    ensures |r| == 8 && Native(order, r) == n
  {
    WordDigits(n, 8);
    ReversedTwice(Digits(n, 8));
    if order == Big then Reversed(Digits(n, 8)) else Digits(n, 8)
  }

  function EncodeCell(order: ByteOrder, cell: Cell): (r: seq<u8>)
    ensures |r| == 8 * |cell|
  {
    if cell == [] then [] else EncodeCell(order, cell[..|cell| - 1]) + EncodeWord(order, cell[|cell| - 1])
  }

  function EncodeCells(order: ByteOrder, cells: seq<Cell>): (r: seq<u8>)
    requires CellsOk(cells)
    ensures |r| == STRIDE * |cells|
  {
    if cells == [] then [] else EncodeCells(order, cells[..|cells| - 1]) + EncodeCell(order, cells[|cells| - 1])
  }

  /** Appending a word to a block. */
  lemma AppendedWord(head: seq<u8>, last: seq<u8>, at: nat)
    requires at + 8 <= |head|
    ensures (head + last)[at..at + 8] == head[at..at + 8]
  {
  }

  lemma LastWord(head: seq<u8>, last: seq<u8>, at: nat)
    requires |last| == 8 && at == |head|
    ensures (head + last)[at..at + 8] == last
  {
  }

  lemma {:induction false} WordOfCell(order: ByteOrder, cell: Cell, j: nat)
    requires j < |cell|
    ensures EncodeCell(order, cell)[8 * j..8 * j + 8] == EncodeWord(order, cell[j])
  {
    var n := |cell| - 1;
    var head, last := EncodeCell(order, cell[..n]), EncodeWord(order, cell[n]);
    if j == n {
      LastWord(head, last, 8 * j);
    } else {
      WordOfCell(order, cell[..n], j);
      AppendedWord(head, last, 8 * j);
    }
  }

  lemma WordFromBytes(order: ByteOrder, data: seq<u8>, at: nat, bytes: seq<u8>)
    requires at + 8 <= |data| && data[at..at + 8] == bytes
    ensures Word(order, data, at) == Native(order, bytes)
  {
  }

  lemma CellRoundTrip(order: ByteOrder, cell: Cell, j: nat)
    requires j < |cell|
    ensures Word(order, EncodeCell(order, cell), 8 * j) == cell[j]
  {
    WordOfCell(order, cell, j);
    WordFromBytes(order, EncodeCell(order, cell), 8 * j, EncodeWord(order, cell[j]));
  }

  lemma WordInAppend(order: ByteOrder, head: seq<u8>, last: seq<u8>, at: nat)
    requires at + 8 <= |last|
    ensures Word(order, head + last, |head| + at) == Word(order, last, at)
  {
    assert (head + last)[|head| + at..|head| + at + 8] == last[at..at + 8];
  }

  lemma CellInHead(order: ByteOrder, head: seq<u8>, last: seq<u8>, base: nat)
    requires base + STRIDE <= |head|
    ensures CellAt(order, head + last, base) == CellAt(order, head, base)
  {
    forall j | 0 <= j < CELL_WORDS
      ensures Word(order, head + last, base + 8 * j) == Word(order, head, base + 8 * j)
    {
      AppendedWord(head, last, base + 8 * j);
    }
  }

  /** The bytes hold the words of a cell. */
  ghost predicate Written(order: ByteOrder, bytes: seq<u8>, cell: Cell) {
    && |bytes| == STRIDE && |cell| == CELL_WORDS
    && forall j :: 0 <= j < CELL_WORDS ==> Word(order, bytes, 8 * j) == cell[j]
  }

  lemma CellInLast(order: ByteOrder, head: seq<u8>, last: seq<u8>, cell: Cell)
    requires Written(order, last, cell)
    ensures CellAt(order, head + last, |head|) == cell
  {
    forall j | 0 <= j < CELL_WORDS
      ensures Word(order, head + last, |head| + 8 * j) == cell[j]
    {
      WordInAppend(order, head, last, 8 * j);
    }
  }

  lemma DecodeAppend(order: ByteOrder, head: seq<u8>, last: seq<u8>, cells: seq<Cell>, cell: Cell)
    requires |head| == STRIDE * |cells| && DecodeCells(order, head, |cells|) == cells
    requires Written(order, last, cell)
    ensures DecodeCells(order, head + last, |cells| + 1) == cells + [cell]
  {
    CellInLast(order, head, last, cell);
    forall c | 0 <= c < |cells|
      ensures CellAt(order, head + last, STRIDE * c) == cells[c]
    {
      CellInHead(order, head, last, STRIDE * c);
      DecodedCell(order, head, |cells|, c);
    }
  }

  lemma CellIsWritten(order: ByteOrder, cell: Cell)
    requires |cell| == CELL_WORDS
    ensures Written(order, EncodeCell(order, cell), cell)
  {
    forall j | 0 <= j < CELL_WORDS
      ensures Word(order, EncodeCell(order, cell), 8 * j) == cell[j]
    {
      CellRoundTrip(order, cell, j);
    }
  }

  /** Reading back what was written gives the same cells. */
  lemma {:induction false} DecodeEncode(order: ByteOrder, cells: seq<Cell>)
    requires CellsOk(cells)
    ensures DecodeCells(order, EncodeCells(order, cells), |cells|) == cells
  {
    if cells == [] {
    } else {
      var front, cell := cells[..|cells| - 1], cells[|cells| - 1];
      DecodeEncode(order, front);
      CellIsWritten(order, cell);
      DecodeAppend(order, EncodeCells(order, front), EncodeCell(order, cell), front, cell);
      assert front + [cell] == cells;
    }
  }

  // ----- the measurement as a whole -----

  lemma {:induction false} BucketsPartition(xs: seq<u64>)
    ensures BucketSum(xs, BUCKET_COUNT) == |xs|
  {
    if xs == [] {
      NoBuckets(BUCKET_COUNT);
    } else {
      BucketsPartition(xs[..|xs| - 1]);
      OneMoreInBuckets(xs, BUCKET_COUNT);
    }
  }

  function BucketSum(xs: seq<u64>, n: nat): nat
    requires n <= BUCKET_COUNT
  {
    if n == 0 then 0 else BucketSum(xs, n - 1) + CountIn(xs, n - 1)
  }

  lemma {:induction false} NoBuckets(n: nat)
    requires n <= BUCKET_COUNT
    ensures BucketSum([], n) == 0
  {
    if n == 0 {
    } else {
      NoBuckets(n - 1);
    }
  }

  lemma {:induction false} OneMoreInBuckets(xs: seq<u64>, n: nat)
    requires xs != [] && n <= BUCKET_COUNT
    ensures BucketSum(xs, n) == BucketSum(xs[..|xs| - 1], n) + (if BucketOf(xs[|xs| - 1]) < n then 1 else 0)
  {
    if n == 0 {
    } else {
      OneMoreInBuckets(xs, n - 1);
      OneBucket(xs[|xs| - 1], n - 1);
    }
  }

  lemma {:induction false} BucketAtMost(xs: seq<u64>, b: nat)
    requires b < BUCKET_COUNT
    ensures CountIn(xs, b) <= |xs|
  {
    if xs == [] {
    } else {
      BucketAtMost(xs[..|xs| - 1], b);
    }
  }

  /** A result is the summary of a list of latencies: the count, the total and the
      buckets modulo 2^64, the maximum exactly. */
  ghost predicate Summarises(r: LatencyResult, xs: seq<u64>) {
    && r.completedRequests == Wrap(|xs|)
    && r.totalLatencyNs == Wrap(Sum(xs))
    && r.maxLatencyNs == Maximum(xs)
    && |r.histogram| == BUCKET_COUNT
    && forall b :: 0 <= b < BUCKET_COUNT ==> r.histogram[b] == Wrap(CountIn(xs, b))
  }

  /** What AggregateLatencyStats returns, by its contract, for the bytes of the cells
      left by any interleaving of bytecode runs, summarises the log. */
  lemma MeasurementIsLog(setup: Setup, cpus: nat, events: seq<Event>, duration: int, r: LatencyResult)
    requires Compiled(setup) && ValidEvents(setup, cpus, events)
    requires CellsOk(RunAll(setup, cpus, events).cells)
    requires Folds(r, duration, DecodeCells(setup.order, EncodeCells(setup.order, RunAll(setup, cpus, events).cells), cpus))
    ensures Summarises(r, Latencies(setup, cpus, events))
  {
    RunsAgreeWithLog(setup, cpus, events);
    DecodeEncode(setup.order, RunAll(setup, cpus, events).cells);
  }

  lemma {:induction false} HistogramIsBucketSum(xs: seq<u64>, h: seq<u64>)
    requires |h| <= BUCKET_COUNT && |xs| < TWO_64
    requires forall b :: 0 <= b < |h| ==> h[b] == Wrap(CountIn(xs, b))
    ensures Sum(h) == BucketSum(xs, |h|)
  {
    if h == [] {
    } else {
      BucketAtMost(xs, |h| - 1);
      HistogramIsBucketSum(xs, h[..|h| - 1]);
    }
  }

  /** With fewer than 2^64 requests and no overflow of the total, the histogram sums to
      the completed requests and both figures are exact. */
  lemma SummaryIsExact(r: LatencyResult, xs: seq<u64>)
    requires Summarises(r, xs) && |xs| < TWO_64 && Sum(xs) < TWO_64
    ensures Sum(r.histogram) == r.completedRequests == |xs|
    ensures r.totalLatencyNs == Sum(xs)
  {
    HistogramIsBucketSum(xs, r.histogram);
    BucketsPartition(xs);
  }
}
