/** Error trees, and which stage a failed collection is reported under. */
module StageErrors {
  import opened Words

  datatype Kind = Cancelled | DeadlineExceeded | Permission | NotExist | MapLayout | Verifier | Capability | OtherKind

  /** A stage error names where it happened; a join has children; any other error has a
      kind and may wrap one error. */
  datatype Error =
    | Stage(status: string, stage: string, operation: string, cause: Option<Error>)
    | Joined(children: seq<Error>)
    | Plain(kind: Kind, inner: Option<Error>)

  /** No error is None. */
  type Failure = Option<Error>

  const CLEANUP_FAILED := "cleanup_failed"

  function Present(failures: seq<Failure>): seq<Error> {
    if failures == [] then []
    else Present(failures[..|failures| - 1])
         + (if failures[|failures| - 1].Some? then [failures[|failures| - 1].value] else [])
  }

  /** Joins failures, dropping those that are none. */
  function Join(failures: seq<Failure>): Failure {
    if Present(failures) == [] then None else Some(Joined(Present(failures)))
  }

  /** The error has the kind anywhere in its tree. */
  predicate Has(e: Error, kind: Kind) {
    match e
    case Stage(_, _, _, cause) => cause.Some? && Has(cause.value, kind)
    case Joined(children) => exists i :: 0 <= i < |children| && Has(children[i], kind)
    case Plain(k, inner) => k == kind || (inner.Some? && Has(inner.value, kind))
  }

  predicate Is(failure: Failure, kind: Kind) {
    failure.Some? && Has(failure.value, kind)
  }

  /** The outermost stage errors of a tree, in order. */
  function Stages(e: Error): (stages: seq<Error>)
    ensures forall i :: 0 <= i < |stages| ==> stages[i].Stage?
  {
    match e
    case Stage(_, _, _, _) => [e]
    case Joined(children) => StagesOfAll(children)
    case Plain(_, inner) => if inner.Some? then Stages(inner.value) else []
  }

  function StagesOfAll(errors: seq<Error>): (stages: seq<Error>)
    ensures forall i :: 0 <= i < |stages| ==> stages[i].Stage?
  {
    if errors == [] then []
    else StagesOfAll(errors[..|errors| - 1]) + Stages(errors[|errors| - 1])
  }

  function StagesOf(failure: Failure): (stages: seq<Error>)
    ensures forall i :: 0 <= i < |stages| ==> stages[i].Stage?
  {
    if failure.Some? then Stages(failure.value) else []
  }

  /** Appends the stage errors of a tree to a list. */
  method Visit(current: Error, stages: seq<Error>) returns (r: seq<Error>)
    ensures r == stages + Stages(current)
    decreases current
  {
    r := stages;
    match current
    case Stage(_, _, _, _) => r := r + [current];
    case Joined(children) =>
      var i := 0;
      while i < |children|
        invariant 0 <= i <= |children|
        invariant r == stages + StagesOfAll(children[..i])
      {
        assert children[..i + 1][..i] == children[..i];
        r := Visit(children[i], r);
        i := i + 1;
      }
      assert children[..i] == children;
    case Plain(_, inner) =>
      if inner.Some? {
        r := Visit(inner.value, r);
      }
  }

  predicate Cleanup(e: Error) {
    e.Stage? && e.status == CLEANUP_FAILED
  }

  /** The stage error a failure is reported under: the first that is not a cleanup
      failure, otherwise the first. */
  method PrimaryStageError(failure: Failure) returns (r: Failure)
    ensures r == Primary(StagesOf(failure))
  {
    var stages := [];
    if failure.Some? {
      stages := Visit(failure.value, []);
    }
    assert stages == StagesOf(failure);
    var i := 0;
    while i < |stages|
      invariant 0 <= i <= |stages|
      invariant forall j :: 0 <= j < i ==> Cleanup(stages[j])
    {
      if stages[i].status != CLEANUP_FAILED {
        FirstCause(stages, i);
        return Some(stages[i]);
      }
      i := i + 1;
    }
    NoCause(stages);
    r := if |stages| > 0 then Some(stages[0]) else None;
  }

  function Primary(stages: seq<Error>): (r: Failure)
    ensures r.Some? <==> stages != []
    ensures r.Some? ==> r.value in stages
  {
    if exists i :: 0 <= i < |stages| && !Cleanup(stages[i]) then Some(FirstOther(stages))
    else if stages == [] then None else Some(stages[0])
  }

  /** The first error that is not a cleanup failure. */
  function FirstOther(stages: seq<Error>): (e: Error)
    requires exists i :: 0 <= i < |stages| && !Cleanup(stages[i])
    ensures e in stages && !Cleanup(e)
  {
    if !Cleanup(stages[0]) then stages[0] else
    assert exists i :: 0 <= i < |stages[1..]| && !Cleanup(stages[1..][i]) by {
      var i :| 0 <= i < |stages| && !Cleanup(stages[i]);
      assert stages[1..][i - 1] == stages[i];
    }
    FirstOther(stages[1..])
  }

  lemma {:induction false} FirstCause(stages: seq<Error>, i: nat)
    requires i < |stages| && !Cleanup(stages[i]) && forall j :: 0 <= j < i ==> Cleanup(stages[j])
    ensures Primary(stages) == Some(stages[i])
  {
    if i == 0 {
    } else {
      assert stages[1..][i - 1] == stages[i];
      FirstCause(stages[1..], i - 1);
    }
  }

  lemma NoCause(stages: seq<Error>)
    requires forall j :: 0 <= j < |stages| ==> Cleanup(stages[j])
    ensures Primary(stages) == if |stages| > 0 then Some(stages[0]) else None
  {
  }

  /** Some stage error of the list is not a cleanup failure. */
  ghost predicate HasCause(stages: seq<Error>) {
    exists i :: 0 <= i < |stages| && !Cleanup(stages[i])
  }

  // ----- joining never masks a cause -----

  function StagesOfEach(failures: seq<Failure>): seq<Error> {
    if failures == [] then []
    else StagesOfEach(failures[..|failures| - 1]) + StagesOf(failures[|failures| - 1])
  }

  lemma {:induction false} PresentStages(failures: seq<Failure>)
    ensures StagesOfAll(Present(failures)) == StagesOfEach(failures)
  {
    if failures == [] {
    } else {
      var front, last := failures[..|failures| - 1], failures[|failures| - 1];
      PresentStages(front);
      if last.Some? {
        var all := Present(front) + [last.value];
        assert all[..|all| - 1] == Present(front);
      } else {
        assert Present(failures) == Present(front);
      }
    }
  }

  /** The stage errors of a join are those of its parts, in order. */
  lemma JoinStages(failures: seq<Failure>)
    ensures StagesOf(Join(failures)) == StagesOfEach(failures)
  {
    PresentStages(failures);
  }

  lemma JoinTwo(a: Failure, b: Failure)
    ensures StagesOf(Join([a, b])) == StagesOf(a) + StagesOf(b)
    ensures Join([a, b]).None? <==> a.None? && b.None?
  {
    JoinStages([a, b]);
    assert [a, b][..1] == [a] && [a][..0] == [];
    assert Present([a]) == (if a.Some? then [a.value] else []);
    assert Present([a, b]) == Present([a]) + (if b.Some? then [b.value] else []);
    assert StagesOfEach([a]) == StagesOf(a);
  }

  /** The primary stage of a concatenation: the first part decides when it has a cause. */
  lemma PrimaryOfConcat(xs: seq<Error>, ys: seq<Error>)
    ensures Primary(xs + ys)
            == if HasCause(xs) then Primary(xs)
               else if HasCause(ys) then Primary(ys)
               else if xs != [] then Some(xs[0]) else Primary(ys)
  {
    if HasCause(xs) {
      var i := FirstIndex(xs);
      FirstCause(xs, i);
      FirstCause(xs + ys, i);
    } else if HasCause(ys) {
      var i := FirstIndex(ys);
      FirstCause(ys, i);
      forall j | 0 <= j < |xs| + i
        ensures Cleanup((xs + ys)[j])
      {
        if j >= |xs| { assert (xs + ys)[j] == ys[j - |xs|]; }
      }
      FirstCause(xs + ys, |xs| + i);
    } else {
      assert !HasCause(xs + ys);
      NoCause(xs + ys);
    }
  }

  lemma FirstIndex(stages: seq<Error>) returns (i: nat)
    requires HasCause(stages)
    ensures i < |stages| && !Cleanup(stages[i]) && forall j :: 0 <= j < i ==> Cleanup(stages[j])
  {
    i := 0;
    while Cleanup(stages[i])
      invariant i < |stages| && HasCause(stages)
      invariant forall j :: 0 <= j < i ==> Cleanup(stages[j])
      decreases |stages| - i
    {
      i := i + 1;
    }
  }

  // ----- classification -----

  /** Wraps a lifecycle failure that names no stage. */
  function ClassifyLifecycle(status: string, operation: string, failure: Failure): (r: Failure)
    ensures r.None? <==> failure.None?
  {
    if failure.None? || |StagesOf(failure)| > 0 then failure
    else if Is(failure, Cancelled) then
      Some(Stage("cancelled", "collection", "per-VM eBPF collection cancelled", failure))
    else if Is(failure, DeadlineExceeded) then
      Some(Stage("deadline_exceeded", "collection", "per-VM eBPF collection deadline exceeded", failure))
    else Some(Stage(status, "collection", operation, failure))
  }

  /** Some stage error of the list is a cleanup failure. */
  predicate HasCleanup(stages: seq<Error>) {
    exists i :: 0 <= i < |stages| && Cleanup(stages[i])
  }

  /** Wraps a cleanup failure that does not say it is one, and only such a failure. */
  function ClassifyCleanup(operation: string, failure: Failure): (r: Failure)
    ensures r.None? <==> failure.None?
    ensures r.Some? ==> HasCleanup(StagesOf(r))
    ensures HasCleanup(StagesOf(failure)) ==> r == failure
    ensures r == failure || r == Some(Stage(CLEANUP_FAILED, "cleanup", operation, failure))
  {
    if failure.None? || HasCleanup(StagesOf(failure)) then failure
    else
      var r := Some(Stage(CLEANUP_FAILED, "cleanup", operation, failure));
      assert Cleanup(StagesOf(r)[0]);
      r
  }

  /** A classified lifecycle failure always names a stage; it has a cause unless all it
      names are cleanup failures. */
  lemma ClassifiedCause(status: string, operation: string, failure: Failure)
    requires failure.Some? && status != CLEANUP_FAILED
    ensures StagesOf(ClassifyLifecycle(status, operation, failure)) != []
    ensures HasCause(StagesOf(ClassifyLifecycle(status, operation, failure)))
            <==> StagesOf(failure) == [] || HasCause(StagesOf(failure))
  {
    var r := ClassifyLifecycle(status, operation, failure);
    if StagesOf(failure) == [] {
      assert "cancelled"[1] != CLEANUP_FAILED[1] && "deadline_exceeded"[1] != CLEANUP_FAILED[1];
      assert !Cleanup(StagesOf(r)[0]);
    }
  }

  /** The operator-facing name of the stage. */
  function ErrorStage(failure: Failure): string {
    var primary := Primary(StagesOf(failure));
    if primary.Some? && primary.value.Stage? then (if primary.value.stage != "" then primary.value.stage else "unknown")
    else if Is(failure, Verifier) then "object_load"
    else if Is(failure, Capability) || Is(failure, Permission) then "preflight"
    else "unknown"
  }

  /** Every kind in a tree. */
  function Kinds(e: Error): set<Kind> {
    match e
    case Stage(_, _, _, cause) => if cause.Some? then Kinds(cause.value) else {}
    case Joined(children) => KindsOfAll(children)
    case Plain(k, inner) => {k} + if inner.Some? then Kinds(inner.value) else {}
  }

  function KindsOfAll(errors: seq<Error>): set<Kind> {
    if errors == [] then {} else KindsOfAll(errors[..|errors| - 1]) + Kinds(errors[|errors| - 1])
  }

  function KindsOf(failure: Failure): set<Kind> {
    if failure.Some? then Kinds(failure.value) else {}
  }

  lemma {:induction false} HasIsKinds(e: Error, kind: Kind)
    ensures Has(e, kind) <==> kind in Kinds(e)
  {
    match e
    case Stage(_, _, _, cause) => if cause.Some? { HasIsKinds(cause.value, kind); }
    case Joined(children) => AnyIsKinds(children, kind);
    case Plain(_, inner) => if inner.Some? { HasIsKinds(inner.value, kind); }
  }

  lemma {:induction false} AnyIsKinds(errors: seq<Error>, kind: Kind)
    ensures (exists i :: 0 <= i < |errors| && Has(errors[i], kind)) <==> kind in KindsOfAll(errors)
  {
    if errors == [] {
    } else {
      var front, last := errors[..|errors| - 1], errors[|errors| - 1];
      AnyIsKinds(front, kind);
      HasIsKinds(last, kind);
      if i :| 0 <= i < |errors| && Has(errors[i], kind) {
        assert i < |front| ==> front[i] == errors[i];
      }
    }
  }

  /** A failure that names no stage is reported by the kinds in its tree: a verifier's
      rejection as the load's, a missing capability or permission as the preflight's. */
  lemma UnstagedError(failure: Failure)
    requires StagesOf(failure) == []
    ensures ErrorStage(failure)
            == if Verifier in KindsOf(failure) then "object_load"
               else if KindsOf(failure) * {Capability, Permission} != {} then "preflight" else "unknown"
  {
    if failure.Some? {
      HasIsKinds(failure.value, Verifier);
      HasIsKinds(failure.value, Capability);
      HasIsKinds(failure.value, Permission);
      assert Capability in Kinds(failure.value) ==> Capability in KindsOf(failure) * {Capability, Permission};
      assert Permission in Kinds(failure.value) ==> Permission in KindsOf(failure) * {Capability, Permission};
    }
  }
}
