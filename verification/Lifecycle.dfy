/** One collection: preflight, prepare, start, collect, stop and close. Every external
    step may fail or be cancelled; what each returns is a parameter. */
module Lifecycle {
  import opened Words
  import opened StageErrors

  /** An attached program; what closing it will return is fixed when it is obtained. */
  datatype Link = Link(id: nat, closeResult: Failure)

  datatype Attach = AttachFailed(error: Error) | NilLink | Attached(closeResult: Failure)

  datatype Stats = NoStats | HostOnlyStats | AttributedStats

  datatype Action = Obtained(id: nat) | LinkClosed(id: nat, result: Failure) | ResourcesClosed | StatsRead

  /** The contents of a session, with the log of what it did to the outside. */
  datatype Session = Session(
    issueLink: Option<Link>, completeLink: Option<Link>, stopped: bool, stopErr: Failure, closed: bool,
    closeErr: Failure, stats: Stats, nextId: nat, log: seq<Action>)

  const NEW_SESSION := Session(None, None, false, None, false, None, NoStats, 0, [])

  datatype Outcome = Outcome(session: Session, failure: Failure)

  // ----- what each call does -----

  function ClassifyAttach(stage: string, operation: string, e: Error): Error {
    Stage(
      if Has(e, Permission) then "permission_denied"
      else if Has(e, NotExist) then "typed_tracepoint_missing" else "attach_failed",
      stage, operation, Some(e))
  }

  const ISSUE_OPERATION := "attach block_rq_issue typed-BTF program"
  const COMPLETE_OPERATION := "attach block_rq_complete typed-BTF program"
  const NIL_LINK := Plain(OtherKind, None)

  /** The error of an attach that gave no link. */
  function AttachError(stage: string, operation: string, a: Attach): Error
    requires !a.Attached?
  {
    match a
    case AttachFailed(e) => ClassifyAttach(stage, operation, e)
    case NilLink => Stage("attach_failed", stage, operation, Some(NIL_LINK))
  }

  function CloseIssue(s: Session): Outcome {
    match s.issueLink
    case None => Outcome(s, None)
    case Some(link) =>
      Outcome(s.(issueLink := None, log := s.log + [LinkClosed(link.id, link.closeResult)]), link.closeResult)
  }

  function CloseComplete(s: Session): Outcome {
    match s.completeLink
    case None => Outcome(s, None)
    case Some(link) =>
      Outcome(s.(completeLink := None, log := s.log + [LinkClosed(link.id, link.closeResult)]), link.closeResult)
  }

  /** A fresh link, with the session's next identity. */
  function Obtain(s: Session): Session {
    s.(nextId := s.nextId + 1, log := s.log + [Obtained(s.nextId)])
  }

  function AfterStart(s: Session, issue: Attach, complete: Attach): Outcome {
    if !issue.Attached? then Outcome(s, Some(AttachError("issue_attach", ISSUE_OPERATION, issue)))
    else
      var one := Obtain(s).(issueLink := Some(Link(s.nextId, issue.closeResult)));
      if complete.Attached? then
        Outcome(Obtain(one).(completeLink := Some(Link(one.nextId, complete.closeResult))), None)
      else
        var attachErr := AttachError("complete_attach", COMPLETE_OPERATION, complete);
        var rolledBack := CloseIssue(one);
        Outcome(rolledBack.session, if rolledBack.failure.None? then Some(attachErr) else
          Join([Some(attachErr), Some(Stage(
            CLEANUP_FAILED, "cleanup", "detach block_rq_issue after partial attach", rolledBack.failure))]))
  }

  function AfterStop(s: Session): Outcome {
    if s.stopped then Outcome(s, s.stopErr) else
    var one := CloseIssue(s);
    var two := CloseComplete(one.session);
    var joined := Join([one.failure, two.failure]);
    var stopErr := if joined.None? then None else
      Some(Stage(CLEANUP_FAILED, "cleanup", "detach typed-BTF request-correlation links", joined));
    Outcome(two.session.(stopped := true, stopErr := stopErr), stopErr)
  }

  const READ_OPERATION := "read typed-BTF request-latency maps"

  function ReadStatus(read: Failure): string {
    if Is(read, MapLayout) then "map_layout_mismatch"
    else if Is(read, Permission) then "permission_denied" else "map_read_failed"
  }

  /** The window is cancelled, or it ends and the maps are read. */
  function AfterCollect(s: Session, cancelled: Failure, read: Failure): Outcome {
    if cancelled.Some? then Outcome(s, cancelled) else
    var stop := AfterStop(s);
    if stop.failure.Some? then stop else
    var done := stop.session.(log := stop.session.log + [StatsRead]);
    if read.Some? then
      Outcome(done.(stats := HostOnlyStats), Some(Stage(ReadStatus(read), "map_read", READ_OPERATION, read)))
    else Outcome(done.(stats := AttributedStats), None)
  }

  function AfterClose(s: Session, resources: Failure): Outcome {
    if s.closed then Outcome(s, s.closeErr) else
    var stop := AfterStop(s);
    var joined := Join([stop.failure, resources]);
    var closeErr := if joined.None? then None else
      Some(Stage(CLEANUP_FAILED, "cleanup", "close typed-BTF request-correlation resources", joined));
    Outcome(
      stop.session.(closed := true, closeErr := closeErr, log := stop.session.log + [ResourcesClosed]), closeErr)
  }

  // ----- the session -----

  class CiliumSession {
    var issueLink: Option<Link>
    var completeLink: Option<Link>
    var stopped: bool
    var stopErr: Failure
    var closed: bool
    var closeErr: Failure
    var stats: Stats
    var nextId: nat
    ghost var log: seq<Action>

    ghost function Contents(): Session
      reads this
    {
      Session(issueLink, completeLink, stopped, stopErr, closed, closeErr, stats, nextId, log)
    }

    constructor ()
      ensures Contents() == NEW_SESSION
    {
      issueLink, completeLink, stopped, stopErr, closed, closeErr := None, None, false, None, false, None;
      stats, nextId, log := NoStats, 0, [];
    }

    method NewLink(closeResult: Failure) returns (link: Link)
      modifies this`nextId, this`log
      ensures link == Link(old(nextId), closeResult) && Contents() == Obtain(old(Contents()))
    {
      link := Link(nextId, closeResult);
      log := log + [Obtained(nextId)];
      nextId := nextId + 1;
    }

    method CloseIssueLink() returns (failure: Failure)
      modifies this`issueLink, this`log
      ensures Outcome(Contents(), failure) == CloseIssue(old(Contents()))
    {
      if issueLink.None? {
        return None;
      }
      var link := issueLink.value;
      issueLink := None;
      log := log + [LinkClosed(link.id, link.closeResult)];
      return link.closeResult;
    }

    method CloseCompleteLink() returns (failure: Failure)
      modifies this`completeLink, this`log
      ensures Outcome(Contents(), failure) == CloseComplete(old(Contents()))
    {
      if completeLink.None? {
        return None;
      }
      var link := completeLink.value;
      completeLink := None;
      log := log + [LinkClosed(link.id, link.closeResult)];
      return link.closeResult;
    }

    /** Attaches issue first and complete second, rolling back issue when complete fails. */
    method Start(issue: Attach, complete: Attach) returns (failure: Failure)
      modifies this
      ensures Outcome(Contents(), failure) == AfterStart(old(Contents()), issue, complete)
    {
      if !issue.Attached? {
        return Some(AttachError("issue_attach", ISSUE_OPERATION, issue));
      }
      var first := NewLink(issue.closeResult);
      issueLink := Some(first);
      if !complete.Attached? {
        var cleanupErr := CloseIssueLink();
        var attachErr := AttachError("complete_attach", COMPLETE_OPERATION, complete);
        if cleanupErr.Some? {
          return Join([Some(attachErr), Some(Stage(
            CLEANUP_FAILED, "cleanup", "detach block_rq_issue after partial attach", cleanupErr))]);
        }
        return Some(attachErr);
      }
      var second := NewLink(complete.closeResult);
      completeLink := Some(second);
      return None;
    }

    method Collect(cancelled: Failure, read: Failure) returns (failure: Failure)
      modifies this
      ensures Outcome(Contents(), failure) == AfterCollect(old(Contents()), cancelled, read)
    {
      if cancelled.Some? {
        return cancelled;
      }
      var stop := Stop();
      if stop.Some? {
        return stop;
      }
      log := log + [StatsRead];
      if read.Some? {
        stats := HostOnlyStats;
        return Some(Stage(ReadStatus(read), "map_read", READ_OPERATION, read));
      }
      stats := AttributedStats;
      return None;
    }

    method Stop() returns (failure: Failure)
      modifies this
      ensures Outcome(Contents(), failure) == AfterStop(old(Contents()))
    {
      if !stopped {
        var issueErr := CloseIssueLink();
        var completeErr := CloseCompleteLink();
        stopErr := Join([issueErr, completeErr]);
        if stopErr.Some? {
          stopErr := Some(Stage(CLEANUP_FAILED, "cleanup", "detach typed-BTF request-correlation links", stopErr));
        }
        stopped := true;
      }
      return stopErr;
    }

    method Close(resources: Failure) returns (failure: Failure)
      modifies this
      ensures Outcome(Contents(), failure) == AfterClose(old(Contents()), resources)
    {
      if !closed {
        var stop := Stop();
        log := log + [ResourcesClosed];
        closeErr := Join([stop, resources]);
        if closeErr.Some? {
          closeErr := Some(Stage(
            CLEANUP_FAILED, "cleanup", "close typed-BTF request-correlation resources", closeErr));
        }
        closed := true;
      }
      return closeErr;
    }
  }

  // ----- runs -----

  datatype Call =
    | StartCall(issue: Attach, complete: Attach)
    | CollectCall(cancelled: Failure, read: Failure)
    | StopCall
    | CloseCall(resources: Failure)

  function After(s: Session, call: Call): Outcome {
    match call
    case StartCall(issue, complete) => AfterStart(s, issue, complete)
    case CollectCall(cancelled, read) => AfterCollect(s, cancelled, read)
    case StopCall => AfterStop(s)
    case CloseCall(resources) => AfterClose(s, resources)
  }

  function Run(calls: seq<Call>): Session {
    if calls == [] then NEW_SESSION else After(Run(calls[..|calls| - 1]), calls[|calls| - 1]).session
  }

  function Obtainings(log: seq<Action>, id: nat): nat {
    if log == [] then 0
    else Obtainings(log[..|log| - 1], id) + (if log[|log| - 1] == Obtained(id) then 1 else 0)
  }

  function Closings(log: seq<Action>, id: nat): nat {
    if log == [] then 0
    else Closings(log[..|log| - 1], id)
         + (if log[|log| - 1].LinkClosed? && log[|log| - 1].id == id then 1 else 0)
  }

  function ResourceClosings(log: seq<Action>): nat {
    if log == [] then 0
    else ResourceClosings(log[..|log| - 1]) + (if log[|log| - 1].ResourcesClosed? then 1 else 0)
  }

  /** A link that was obtained and not closed. */
  predicate Open(log: seq<Action>, id: nat) {
    Obtainings(log, id) > Closings(log, id)
  }

  predicate Holds(s: Session, id: nat) {
    (s.issueLink.Some? && s.issueLink.value.id == id) || (s.completeLink.Some? && s.completeLink.value.id == id)
  }

  /** What every session keeps, under any calls: a link is obtained once and closed at most
      once, the links held are open and different, and the resources are closed exactly
      when the session is, once. */
  ghost predicate Consistent(s: Session) {
    && (forall id: nat :: Obtainings(s.log, id) == (if id < s.nextId then 1 else 0))
    && (forall id: nat :: Closings(s.log, id) <= Obtainings(s.log, id))
    && (forall id: nat :: Holds(s, id) ==> Open(s.log, id))
    && (s.issueLink.Some? && s.completeLink.Some? ==> s.issueLink.value.id != s.completeLink.value.id)
    && (s.closed ==> s.stopped)
    && ResourceClosings(s.log) == (if s.closed then 1 else 0)
  }

  /** The log grew by one action about a link. */
  ghost predicate Grew(before: seq<Action>, after: seq<Action>, a: Action) {
    && (forall id: nat :: Obtainings(after, id) == Obtainings(before, id) + (if a == Obtained(id) then 1 else 0))
    && (forall id: nat :: Closings(after, id) == Closings(before, id) + (if a.LinkClosed? && a.id == id then 1 else 0))
    && ResourceClosings(after) == ResourceClosings(before) + (if a.ResourcesClosed? then 1 else 0)
  }

  lemma LogGrows(log: seq<Action>, a: Action)
    ensures Grew(log, log + [a], a)
  {
    assert (log + [a])[..|log|] == log;
  }

  lemma ObtainKeeps(s: Session)
    requires Consistent(s)
    ensures Consistent(Obtain(s)) && !Holds(s, s.nextId) && Open(Obtain(s).log, s.nextId)
    ensures forall id: nat :: id != s.nextId ==> (Open(Obtain(s).log, id) <==> Open(s.log, id))
  {
    LogGrows(s.log, Obtained(s.nextId));
    assert Holds(s, s.nextId) ==> Open(s.log, s.nextId);
    assert Closings(s.log, s.nextId) <= Obtainings(s.log, s.nextId);
    forall id: nat
      ensures Closings(Obtain(s).log, id) <= Obtainings(Obtain(s).log, id) == (if id < s.nextId + 1 then 1 else 0)
    {
      assert Closings(s.log, id) <= Obtainings(s.log, id);
    }
    forall id: nat | Holds(s, id)
      ensures Open(Obtain(s).log, id)
    {
      assert Open(s.log, id);
    }
  }

  /** One of the two held links is closed and given up; the other stays. */
  ghost predicate Drops(s: Session, after: Session, link: Link) {
    && after.log == s.log + [LinkClosed(link.id, link.closeResult)]
    && (forall id: nat :: Holds(after, id) <==> Holds(s, id) && id != link.id)
    && after == s.(issueLink := after.issueLink, completeLink := after.completeLink, log := after.log)
    && (after.issueLink.None? || after.completeLink.None?)
  }

  lemma DropKeeps(s: Session, after: Session, link: Link)
    requires Consistent(s) && Holds(s, link.id) && Drops(s, after, link)
    ensures Consistent(after)
    ensures forall id: nat :: Open(after.log, id) <==> Open(s.log, id) && id != link.id
  {
    LogGrows(s.log, LinkClosed(link.id, link.closeResult));
    assert Open(s.log, link.id);
    forall id: nat
      ensures Closings(after.log, id) <= Obtainings(after.log, id) == (if id < after.nextId then 1 else 0)
      ensures Open(after.log, id) <==> Open(s.log, id) && id != link.id
    {
      assert Closings(s.log, id) <= Obtainings(s.log, id);
    }
  }

  lemma CloseIssueKeeps(s: Session)
    requires Consistent(s)
    ensures var one := CloseIssue(s).session;
            && Consistent(one) && one == s.(issueLink := None, log := one.log)
            && forall id: nat :: Open(one.log, id) <==>
                 Open(s.log, id) && !(s.issueLink.Some? && s.issueLink.value.id == id)
  {
    var one := CloseIssue(s).session;
    if s.issueLink.Some? {
      assert Holds(s, s.issueLink.value.id);
      DropKeeps(s, one, s.issueLink.value);
    }
  }

  lemma CloseCompleteKeeps(s: Session)
    requires Consistent(s) && s.issueLink.None?
    ensures var two := CloseComplete(s).session;
            && Consistent(two) && two == s.(completeLink := None, log := two.log)
            && forall id: nat :: Open(two.log, id) <==>
                 Open(s.log, id) && !(s.completeLink.Some? && s.completeLink.value.id == id)
  {
    var two := CloseComplete(s).session;
    if s.completeLink.Some? {
      assert Holds(s, s.completeLink.value.id);
      DropKeeps(s, two, s.completeLink.value);
    }
  }

  /** Stopping for the first time closes exactly the held links; afterwards it does nothing. */
  lemma StopKeeps(s: Session)
    requires Consistent(s)
    ensures var after := AfterStop(s).session;
            && Consistent(after) && after.stopped && after.nextId == s.nextId
            && after.stopErr == AfterStop(s).failure
            && (if s.stopped then after == s else after.issueLink.None? && after.completeLink.None?)
            && forall id: nat :: Open(after.log, id) <==> Open(s.log, id) && (s.stopped || !Holds(s, id))
  {
    if !s.stopped {
      var one := CloseIssue(s).session;
      CloseIssueKeeps(s);
      CloseCompleteKeeps(one);
      assert AfterStop(s).session.log == CloseComplete(one).session.log;
    }
  }

  /** The state after the issue program attached. */
  function FirstLink(s: Session, issue: Attach): Session
    requires issue.Attached?
  {
    Obtain(s).(issueLink := Some(Link(s.nextId, issue.closeResult)))
  }

  lemma FirstLinkKeeps(s: Session, issue: Attach)
    requires Consistent(s) && issue.Attached?
    ensures Consistent(FirstLink(s, issue)) && Open(FirstLink(s, issue).log, s.nextId)
    ensures forall id: nat :: id != s.nextId ==> (Open(FirstLink(s, issue).log, id) <==> Open(s.log, id))
  {
    ObtainKeeps(s);
    var one := FirstLink(s, issue);
    assert one.log == Obtain(s).log;
    forall id: nat | Holds(one, id)
      ensures Open(one.log, id)
    {
      assert id == s.nextId || Holds(s, id);
      assert id != s.nextId ==> Open(s.log, id);
    }
    if s.completeLink.Some? { assert Holds(s, s.completeLink.value.id); }
  }

  /** Starting leaves a session consistent. A failed start opens nothing new; a successful
      one opens and holds two new links. */
  lemma StartKeeps(s: Session, issue: Attach, complete: Attach)
    requires Consistent(s)
    ensures var after := AfterStart(s, issue, complete).session;
            && Consistent(after) && after.nextId >= s.nextId && after.stopped == s.stopped
            && (forall id: nat :: id < s.nextId ==> (Open(after.log, id) <==> Open(s.log, id)))
            && (if issue.Attached? && complete.Attached? then
                  && Open(after.log, s.nextId) && Open(after.log, s.nextId + 1)
                  && (forall id: nat :: Holds(after, id) <==> id == s.nextId || id == s.nextId + 1)
                else if issue.Attached? then
                  && (forall id: nat :: id >= s.nextId ==> !Open(after.log, id))
                  && after.issueLink.None? && after.completeLink == s.completeLink
                else after == s)
  {
    if issue.Attached? {
      FirstLinkKeeps(s, issue);
      var one := FirstLink(s, issue);
      assert Holds(one, s.nextId);
      if complete.Attached? {
        SecondLinkKeeps(one, complete);
      } else {
        DropKeeps(one, CloseIssue(one).session, one.issueLink.value);
      }
    }
  }

  lemma SecondLinkKeeps(one: Session, complete: Attach)
    requires Consistent(one) && complete.Attached? && one.issueLink.Some?
    ensures var after := Obtain(one).(completeLink := Some(Link(one.nextId, complete.closeResult)));
            && Consistent(after) && Open(after.log, one.nextId)
            && (forall id: nat :: id != one.nextId ==> (Open(after.log, id) <==> Open(one.log, id)))
            && (forall id: nat :: Holds(after, id) <==> id == one.nextId || id == one.issueLink.value.id)
  {
    ObtainKeeps(one);
    assert Holds(one, one.issueLink.value.id);
    var after := Obtain(one).(completeLink := Some(Link(one.nextId, complete.closeResult)));
    assert after.log == Obtain(one).log;
  }

  lemma OtherActionKeeps(s: Session, a: Action)
    requires Consistent(s) && (a.StatsRead? || a.ResourcesClosed?)
    ensures Grew(s.log, s.log + [a], a)
    ensures forall id: nat :: Open(s.log + [a], id) <==> Open(s.log, id)
  {
    LogGrows(s.log, a);
  }

  lemma CollectKeeps(s: Session, cancelled: Failure, read: Failure)
    requires Consistent(s)
    ensures var after := AfterCollect(s, cancelled, read).session;
            && Consistent(after)
            && (forall id: nat :: Open(after.log, id) <==> Open(s.log, id) && (cancelled.Some? || s.stopped || !Holds(s, id)))
            && (if cancelled.Some? then after == s
                else after.stopped && after.nextId == s.nextId
                     && after.issueLink == AfterStop(s).session.issueLink
                     && after.completeLink == AfterStop(s).session.completeLink)
  {
    if cancelled.None? {
      StopKeeps(s);
      var stop := AfterStop(s);
      if stop.failure.None? {
        OtherActionKeeps(stop.session, StatsRead);
        var after := AfterCollect(s, cancelled, read).session;
        assert after.log == stop.session.log + [StatsRead];
        assert forall id: nat :: Holds(after, id) <==> Holds(stop.session, id);
      }
    }
  }

  /** Releasing the resources of a stopped session. */
  lemma ReleaseKeeps(stop: Session, after: Session)
    requires Consistent(stop) && stop.stopped && !stop.closed
    requires after == stop.(closed := true, closeErr := after.closeErr, log := stop.log + [ResourcesClosed])
    ensures Consistent(after)
    ensures forall id: nat :: Open(after.log, id) <==> Open(stop.log, id)
  {
    OtherActionKeeps(stop, ResourcesClosed);
    forall id: nat | Holds(after, id)
      ensures Open(after.log, id)
    {
      assert Holds(stop, id);
    }
  }

  lemma CloseReleases(s: Session, resources: Failure)
    requires !s.closed
    ensures var stop, after := AfterStop(s).session, AfterClose(s, resources).session;
            after == stop.(closed := true, closeErr := after.closeErr, log := stop.log + [ResourcesClosed])
            && stop.closed == s.closed
  {
  }

  lemma CloseKeeps(s: Session, resources: Failure)
    requires Consistent(s)
    ensures var after := AfterClose(s, resources).session;
            && Consistent(after) && after.closed && after.nextId == s.nextId
            && (forall id: nat :: Open(after.log, id) <==> Open(s.log, id) && (s.stopped || !Holds(s, id)))
            && after.issueLink == AfterStop(s).session.issueLink
            && after.completeLink == AfterStop(s).session.completeLink
  {
    StopKeeps(s);
    if !s.closed {
      CloseReleases(s, resources);
      ReleaseKeeps(AfterStop(s).session, AfterClose(s, resources).session);
    }
  }

  /** Every call keeps a session consistent, whatever fails. */
  lemma CallKeeps(s: Session, call: Call)
    requires Consistent(s)
    ensures Consistent(After(s, call).session)
  {
    match call
    case StartCall(issue, complete) => StartKeeps(s, issue, complete);
    case CollectCall(cancelled, read) => CollectKeeps(s, cancelled, read);
    case StopCall => StopKeeps(s);
    case CloseCall(resources) => CloseKeeps(s, resources);
  }

  lemma {:induction false} RunsAreConsistent(calls: seq<Call>)
    ensures Consistent(Run(calls))
  {
    if calls == [] {
    } else {
      RunsAreConsistent(calls[..|calls| - 1]);
      CallKeeps(Run(calls[..|calls| - 1]), calls[|calls| - 1]);
    }
  }

  lemma ClosedStep(s: Session, call: Call)
    ensures After(s, call).session.closed <==> s.closed || call.CloseCall?
  {
  }

  function CloseCalls(calls: seq<Call>): nat {
    if calls == [] then 0 else CloseCalls(calls[..|calls| - 1]) + (if calls[|calls| - 1].CloseCall? then 1 else 0)
  }

  lemma {:induction false} ClosedWhen(calls: seq<Call>)
    ensures Run(calls).closed <==> CloseCalls(calls) > 0
  {
    if calls == [] {
    } else {
      ClosedWhen(calls[..|calls| - 1]);
      ClosedStep(Run(calls[..|calls| - 1]), calls[|calls| - 1]);
    }
  }

  /** In any run, whatever fails, no link is closed twice or without having been obtained,
      and the resources are closed once if the run closes the session, and otherwise never. */
  lemma ClosedAtMostOnce(calls: seq<Call>)
    ensures forall id: nat :: Closings(Run(calls).log, id) <= Obtainings(Run(calls).log, id) <= 1
    ensures ResourceClosings(Run(calls).log) == if CloseCalls(calls) > 0 then 1 else 0
  {
    RunsAreConsistent(calls);
    ClosedWhen(calls);
  }

  // ----- when nothing leaks -----

  /** A start that may obtain links finds none held, and a start that keeps links finds the
      session not stopped. */
  predicate Safe(s: Session, call: Call) {
    call.StartCall? && call.issue.Attached? ==> s.issueLink.None? && (call.complete.Attached? ==> !s.stopped)
  }

  ghost predicate SafeAt(calls: seq<Call>, i: nat) {
    i < |calls| && Safe(Run(calls[..i]), calls[i])
  }

  ghost predicate AllSafe(calls: seq<Call>) {
    forall i :: 0 <= i < |calls| ==> SafeAt(calls, i)
  }

  /** The open links are the held ones, and a stopped session holds none. */
  ghost predicate Tidy(s: Session) {
    && (forall id: nat :: Open(s.log, id) <==> Holds(s, id))
    && (s.issueLink.Some? <==> s.completeLink.Some?)
    && (s.stopped ==> s.issueLink.None?)
  }

  /** An open link that nothing will close. */
  ghost predicate Leaked(s: Session, id: nat) {
    Open(s.log, id) && (s.stopped || !Holds(s, id))
  }

  lemma SafeStaysTidy(s: Session, call: Call)
    requires Consistent(s) && Tidy(s) && Safe(s, call)
    ensures Tidy(After(s, call).session)
  {
    match call
    case StartCall(issue, complete) =>
      StartKeeps(s, issue, complete);
      assert forall id: nat :: Obtainings(s.log, id) == (if id < s.nextId then 1 else 0);
    case CollectCall(cancelled, read) =>
      CollectKeeps(s, cancelled, read);
      StopKeeps(s);
    case StopCall => StopKeeps(s);
    case CloseCall(resources) =>
      CloseKeeps(s, resources);
      StopKeeps(s);
  }

  lemma UnsafeLeaks(s: Session, call: Call) returns (id: nat)
    requires Consistent(s) && Tidy(s) && !Safe(s, call)
    ensures Leaked(After(s, call).session, id)
  {
    StartKeeps(s, call.issue, call.complete);
    if s.issueLink.Some? {
      id := s.issueLink.value.id;
      assert Holds(s, id) && Open(s.log, id);
      assert Obtainings(s.log, id) == (if id < s.nextId then 1 else 0);
    } else {
      id := s.nextId;
    }
  }

  lemma LeakIsForever(s: Session, call: Call, id: nat)
    requires Consistent(s) && Leaked(s, id)
    ensures Leaked(After(s, call).session, id)
  {
    assert Obtainings(s.log, id) == (if id < s.nextId then 1 else 0);
    match call
    case StartCall(issue, complete) => StartKeeps(s, issue, complete);
    case CollectCall(cancelled, read) =>
      CollectKeeps(s, cancelled, read);
      StopKeeps(s);
    case StopCall => StopKeeps(s);
    case CloseCall(resources) =>
      CloseKeeps(s, resources);
      StopKeeps(s);
  }

  lemma SafeAtFront(calls: seq<Call>, n: nat, i: nat)
    requires i < n <= |calls|
    ensures SafeAt(calls[..n], i) <==> SafeAt(calls, i)
  {
    assert calls[..n][..i] == calls[..i];
  }

  lemma AllSafeFront(calls: seq<Call>)
    requires calls != []
    ensures AllSafe(calls) <==> AllSafe(calls[..|calls| - 1]) && Safe(Run(calls[..|calls| - 1]), calls[|calls| - 1])
  {
    var n := |calls| - 1;
    forall i | 0 <= i < n
      ensures SafeAt(calls[..n], i) <==> SafeAt(calls, i)
    {
      SafeAtFront(calls, n, i);
    }
    assert SafeAt(calls, n) <==> Safe(Run(calls[..n]), calls[n]);
  }

  lemma {:induction false} TidyUnlessUnsafe(calls: seq<Call>)
    ensures if AllSafe(calls) then Tidy(Run(calls)) else exists id: nat :: Leaked(Run(calls), id)
  {
    if calls == [] {
    } else {
      var n := |calls| - 1;
      var s := Run(calls[..n]);
      TidyUnlessUnsafe(calls[..n]);
      AllSafeFront(calls);
      RunsAreConsistent(calls[..n]);
      if !AllSafe(calls[..n]) {
        var id: nat :| Leaked(s, id);
        LeakIsForever(s, calls[n], id);
        assert Leaked(Run(calls), id);
      } else if Safe(s, calls[n]) {
        SafeStaysTidy(s, calls[n]);
      } else {
        var id := UnsafeLeaks(s, calls[n]);
        assert Leaked(Run(calls), id);
      }
    }
  }

  lemma OpenUnless(s: Session, safe: bool)
    requires Consistent(s) && s.stopped && (if safe then Tidy(s) else exists id: nat :: Leaked(s, id))
    ensures (forall id: nat :: Closings(s.log, id) == Obtainings(s.log, id)) <==> safe
  {
    if safe {
      forall id: nat
        ensures Closings(s.log, id) == Obtainings(s.log, id)
      {
        assert !Holds(s, id);
        assert !Open(s.log, id);
      }
    } else {
      var id: nat :| Leaked(s, id);
      assert Closings(s.log, id) < Obtainings(s.log, id);
    }
  }

  /** A closing call after any run. */
  lemma LastCall(calls: seq<Call>, resources: Failure)
    ensures var all := calls + [CloseCall(resources)];
            Consistent(Run(all)) && Run(all).stopped && (AllSafe(all) <==> AllSafe(calls))
  {
    var all := calls + [CloseCall(resources)];
    assert all[..|all| - 1] == calls;
    RunsAreConsistent(all);
    RunsAreConsistent(calls);
    AllSafeFront(all);
    CloseKeeps(Run(calls), resources);
  }

  /** A run that ends by closing the session has closed every link it obtained, each exactly
      once, exactly when every start in it was safe. */
  lemma ClosedRunLeaksNothing(calls: seq<Call>, resources: Failure, s: Session)
    requires s == Run(calls + [CloseCall(resources)])
    ensures (forall id: nat :: Closings(s.log, id) == Obtainings(s.log, id)) <==> AllSafe(calls)
  {
    LastCall(calls, resources);
    TidyUnlessUnsafe(calls + [CloseCall(resources)]);
    OpenUnless(s, AllSafe(calls));
  }

  // ----- once-only results -----

  lemma StopResult(s: Session, call: Call)
    ensures s.stopped ==> After(s, call).session.stopped && After(s, call).session.stopErr == s.stopErr
    ensures s.closed ==> After(s, call).session.closed && After(s, call).session.closeErr == s.closeErr
  {
  }

  function RunFrom(s: Session, calls: seq<Call>): Session {
    if calls == [] then s else After(RunFrom(s, calls[..|calls| - 1]), calls[|calls| - 1]).session
  }

  /** However many calls come between, repeating Stop or Close returns the first result and
      changes nothing. */
  lemma {:induction false} RepeatedCalls(s: Session, calls: seq<Call>, resources: Failure)
    ensures s.stopped ==> RunFrom(s, calls).stopped
                          && AfterStop(RunFrom(s, calls)) == Outcome(RunFrom(s, calls), s.stopErr)
    ensures s.closed ==> RunFrom(s, calls).closed
                         && AfterClose(RunFrom(s, calls), resources) == Outcome(RunFrom(s, calls), s.closeErr)
  {
    if calls == [] {
    } else {
      var before := RunFrom(s, calls[..|calls| - 1]);
      RepeatedCalls(s, calls[..|calls| - 1], resources);
      StopResult(before, calls[|calls| - 1]);
    }
  }

  /** The first stop fails exactly when closing a held link does, and closes the issue link
      before the completion link. */
  lemma FirstStop(s: Session)
    requires !s.stopped
    ensures AfterStop(s).failure.None? <==>
              && (s.issueLink.Some? ==> s.issueLink.value.closeResult.None?)
              && (s.completeLink.Some? ==> s.completeLink.value.closeResult.None?)
    ensures AfterStop(s).session.log
            == s.log + (if s.issueLink.Some? then [LinkClosed(s.issueLink.value.id, s.issueLink.value.closeResult)] else [])
               + (if s.completeLink.Some? then [LinkClosed(s.completeLink.value.id, s.completeLink.value.closeResult)] else [])
  {
    var one := CloseIssue(s);
    JoinTwo(one.failure, CloseComplete(one.session).failure);
    assert s.log + [] == s.log;
  }

  /** The first close fails exactly when stopping or releasing the resources does. */
  lemma FirstClose(s: Session, resources: Failure)
    requires !s.closed
    ensures AfterClose(s, resources).failure.None? <==> AfterStop(s).failure.None? && resources.None?
    ensures AfterClose(s, resources).session.log == AfterStop(s).session.log + [ResourcesClosed]
  {
    JoinTwo(AfterStop(s).failure, resources);
  }

  /** Whatever is called after the first stop or close, another returns the same result and
      changes nothing. */
  lemma FirstIsRepeated(s: Session, calls: seq<Call>, resources: Failure, again: Failure)
    ensures var stop, later := AfterStop(s), RunFrom(AfterStop(s).session, calls);
            AfterStop(later) == Outcome(later, stop.failure)
    ensures var close, later := AfterClose(s, resources), RunFrom(AfterClose(s, resources).session, calls);
            AfterClose(later, again) == Outcome(later, close.failure)
  {
    RepeatedCalls(AfterStop(s).session, calls, again);
    RepeatedCalls(AfterClose(s, resources).session, calls, again);
  }

  // ----- reading only after detaching -----

  /** Every link obtained so far is closed. */
  ghost predicate Detached(log: seq<Action>) {
    forall id: nat :: !Open(log, id)
  }

  /** The maps are only ever read with every obtained link closed. */
  ghost predicate ReadsDetached(log: seq<Action>) {
    forall i :: 0 <= i < |log| && log[i].StatsRead? ==> Detached(log[..i])
  }

  ghost predicate NoRead(actions: seq<Action>) {
    forall i :: 0 <= i < |actions| ==> !actions[i].StatsRead?
  }

  lemma AppendNoRead(log: seq<Action>, actions: seq<Action>)
    requires ReadsDetached(log) && NoRead(actions)
    ensures ReadsDetached(log + actions)
  {
    forall i | 0 <= i < |log + actions| && (log + actions)[i].StatsRead?
      ensures Detached((log + actions)[..i])
    {
      assert (log + actions)[..i] == log[..i];
    }
  }

  lemma AppendRead(log: seq<Action>)
    requires ReadsDetached(log) && Detached(log)
    ensures ReadsDetached(log + [StatsRead])
  {
    forall i | 0 <= i < |log + [StatsRead]| && (log + [StatsRead])[i].StatsRead?
      ensures Detached((log + [StatsRead])[..i])
    {
      assert (log + [StatsRead])[..i] == log[..i];
      if i == |log| { assert log[..i] == log; }
    }
  }

  lemma StopLog(s: Session) returns (actions: seq<Action>)
    ensures AfterStop(s).session.log == s.log + actions && NoRead(actions)
  {
    if s.stopped {
      actions := [];
    } else {
      var first := if s.issueLink.Some? then [LinkClosed(s.issueLink.value.id, s.issueLink.value.closeResult)] else [];
      var second :=
        if s.completeLink.Some? then [LinkClosed(s.completeLink.value.id, s.completeLink.value.closeResult)] else [];
      actions := first + second;
      assert CloseIssue(s).session.log == s.log + first;
      assert s.log + actions == (s.log + first) + second;
    }
  }

  lemma StartLog(s: Session, issue: Attach, complete: Attach) returns (actions: seq<Action>)
    ensures AfterStart(s, issue, complete).session.log == s.log + actions && NoRead(actions)
  {
    if !issue.Attached? {
      actions := [];
    } else if complete.Attached? {
      actions := [Obtained(s.nextId), Obtained(s.nextId + 1)];
      assert s.log + actions == (s.log + [Obtained(s.nextId)]) + [Obtained(s.nextId + 1)];
    } else {
      actions := [Obtained(s.nextId), LinkClosed(s.nextId, issue.closeResult)];
      assert s.log + actions == (s.log + [Obtained(s.nextId)]) + [LinkClosed(s.nextId, issue.closeResult)];
    }
  }

  lemma ReadsStayDetached(s: Session, call: Call)
    requires Consistent(s) && Tidy(s) && ReadsDetached(s.log)
    ensures ReadsDetached(After(s, call).session.log)
  {
    match call
    case StartCall(issue, complete) =>
      var actions := StartLog(s, issue, complete);
      AppendNoRead(s.log, actions);
    case StopCall =>
      var actions := StopLog(s);
      AppendNoRead(s.log, actions);
    case CloseCall(resources) =>
      var actions := StopLog(s);
      AppendNoRead(s.log, actions);
      AppendNoRead(AfterStop(s).session.log, [ResourcesClosed]);
    case CollectCall(cancelled, read) =>
      if cancelled.None? {
        var actions := StopLog(s);
        AppendNoRead(s.log, actions);
        StopKeeps(s);
        forall id: nat
          ensures !Open(AfterStop(s).session.log, id)
        {
          assert s.stopped ==> !Holds(s, id);
        }
        AppendRead(AfterStop(s).session.log);
      }
  }

  /** In any safe run the maps are read only when every link has been detached. */
  lemma {:induction false} ReadAfterDetach(calls: seq<Call>)
    requires AllSafe(calls)
    ensures ReadsDetached(Run(calls).log)
  {
    if calls == [] {
    } else {
      var n := |calls| - 1;
      AllSafeFront(calls);
      ReadAfterDetach(calls[..n]);
      TidyUnlessUnsafe(calls[..n]);
      RunsAreConsistent(calls[..n]);
      ReadsStayDetached(Run(calls[..n]), calls[n]);
    }
  }

  lemma ReadStep(s: Session, call: Call)
    requires StatsRead in s.log ==> s.stopped && s.stopErr.None?
    ensures StatsRead in After(s, call).session.log
            ==> After(s, call).session.stopped && After(s, call).session.stopErr.None?
  {
    StopResult(s, call);
    if call.StartCall? {
      var actions := StartLog(s, call.issue, call.complete);
    } else {
      var actions := StopLog(s);
    }
  }

  /** In any run, the maps are read only after a stop that reported no error. */
  lemma {:induction false} ReadAfterCleanStop(calls: seq<Call>)
    ensures StatsRead in Run(calls).log ==> Run(calls).stopped && Run(calls).stopErr.None?
  {
    if calls == [] {
    } else {
      ReadAfterCleanStop(calls[..|calls| - 1]);
      ReadStep(Run(calls[..|calls| - 1]), calls[|calls| - 1]);
    }
  }

  // ----- one collection -----

  datatype Preflight = Preflight(failure: Failure, available: bool)

  datatype Prepared = PrepareFailed(error: Error) | NilSession | Ready

  /** What the steps of one collection return. */
  datatype Script = Script(issue: Attach, complete: Attach, cancelled: Failure, read: Failure, resources: Failure)

  /** The error for a source that prepares nothing. */
  const NO_SESSION := Plain(OtherKind, None)

  const START_OPERATION := "start per-VM eBPF collection"
  const COLLECT_OPERATION := "collect per-VM eBPF events"
  const STOP_OPERATION := "stop per-VM eBPF collection"
  const CLOSE_OPERATION := "close per-VM eBPF collection"

  /** The failure of a start, with what closing returned. */
  function StartReport(start: Failure, close: Failure): Failure {
    WithClose(ClassifyLifecycle("start_failed", START_OPERATION, start), close)
  }

  /** The failure of a collection, with what stopping and closing returned. */
  function CollectReport(collect: Failure, stop: Failure, close: Failure): Failure {
    WithClose(
      Join([ClassifyLifecycle("collection_failed", COLLECT_OPERATION, collect), ClassifyCleanup(STOP_OPERATION, stop)]),
      close)
  }

  function WithClose(failure: Failure, close: Failure): Failure {
    var closeErr := ClassifyCleanup(CLOSE_OPERATION, close);
    if closeErr.Some? then Join([failure, closeErr]) else failure
  }

  /** The calls a collection makes on its session. */
  function SourceCalls(script: Script): seq<Call> {
    var start := StartCall(script.issue, script.complete);
    if After(NEW_SESSION, start).failure.Some? then [start, CloseCall(script.resources)]
    else [start, CollectCall(script.cancelled, script.read), StopCall, CloseCall(script.resources)]
  }

  function SourceFailure(script: Script): Failure {
    var start := AfterStart(NEW_SESSION, script.issue, script.complete);
    if start.failure.Some? then StartReport(start.failure, AfterClose(start.session, script.resources).failure)
    else
      var collect := AfterCollect(start.session, script.cancelled, script.read);
      var stop := AfterStop(collect.session);
      CollectReport(collect.failure, stop.failure, AfterClose(stop.session, script.resources).failure)
  }

  method RunKernelSource(preflight: Preflight, prepared: Prepared, script: Script)
    returns (failure: Failure, stats: Stats, session: CiliumSession?)
    ensures preflight.failure.Some? ==> failure == preflight.failure
    ensures preflight.failure.None? && !preflight.available ==> failure == Some(Plain(Capability, None))
    ensures preflight.failure.None? && preflight.available && prepared.PrepareFailed? ==> failure == Some(prepared.error)
    ensures preflight.failure.None? && preflight.available && prepared.NilSession? ==> failure == Some(NO_SESSION)
    ensures session != null <==> preflight.failure.None? && preflight.available && prepared.Ready?
    ensures session == null ==> failure.Some? && stats == NoStats
    ensures session != null ==> fresh(session) && session.Contents() == Run(SourceCalls(script))
    ensures session != null ==> failure == SourceFailure(script)
    ensures stats == AttributedStats <==> session != null && WindowEnds(script) && script.read.None?
    ensures stats == HostOnlyStats <==> session != null && WindowEnds(script) && script.read.Some?
  {
    stats, session := NoStats, null;
    if preflight.failure.Some? {
      return preflight.failure, stats, session;
    }
    if !preflight.available {
      return Some(Plain(Capability, None)), stats, session;
    }
    if prepared.PrepareFailed? {
      return Some(prepared.error), stats, session;
    }
    if prepared.NilSession? {
      return Some(NO_SESSION), stats, session;
    }
    session := new CiliumSession();
    SourceRun(script);
    SourceStats(script);
    FailedStartIsClean(script.issue, script.complete);
    var startErr := session.Start(script.issue, script.complete);
    if startErr.Some? {
      failure := ClassifyLifecycle("start_failed", START_OPERATION, startErr);
    } else {
      var collect := session.Collect(script.cancelled, script.read);
      var collectErr := ClassifyLifecycle("collection_failed", COLLECT_OPERATION, collect);
      var stop := session.Stop();
      var stopErr := ClassifyCleanup(STOP_OPERATION, stop);
      stats := session.stats;
      failure := Join([collectErr, stopErr]);
    }
    var close := session.Close(script.resources);
    var closeErr := ClassifyCleanup(CLOSE_OPERATION, close);
    if closeErr.Some? {
      failure := Join([failure, closeErr]);
    }
  }

  /** The final state of a collection's session. */
  lemma SourceRun(script: Script)
    ensures var start := AfterStart(NEW_SESSION, script.issue, script.complete);
            Run(SourceCalls(script)) ==
            if start.failure.Some? then AfterClose(start.session, script.resources).session
            else
              var collect := AfterCollect(start.session, script.cancelled, script.read);
              AfterClose(AfterStop(collect.session).session, script.resources).session
  {
    var calls := SourceCalls(script);
    assert calls[..1] == [calls[0]] && calls[..1][..0] == [];
    assert Run(calls[..1]) == After(NEW_SESSION, calls[0]).session;
    assert calls[..2][..1] == calls[..1];
    if |calls| == 4 {
      assert calls[..3][..2] == calls[..2];
      assert Run(calls[..3]) == After(Run(calls[..2]), calls[2]).session;
    }
  }

  /** Both programs attach, nothing cancels the window, and both detach without error. */
  predicate WindowEnds(script: Script) {
    && script.issue.Attached? && script.complete.Attached? && script.cancelled.None?
    && script.issue.closeResult.None? && script.complete.closeResult.None?
  }

  /** The statistics of a collection are attributed exactly when its window ends and the
      maps are read, and those of the host alone exactly when it ends and the read fails. */
  lemma SourceStats(script: Script)
    ensures var stats := Run(SourceCalls(script)).stats;
            && (stats == AttributedStats <==> WindowEnds(script) && script.read.None?)
            && (stats == HostOnlyStats <==> WindowEnds(script) && script.read.Some?)
  {
    SourceRun(script);
    FailedStartIsClean(script.issue, script.complete);
    var start := AfterStart(NEW_SESSION, script.issue, script.complete);
    StatsKept(start.session, script.resources);
    if start.failure.None? {
      var collect := AfterCollect(start.session, script.cancelled, script.read);
      JoinTwo(script.issue.closeResult, script.complete.closeResult);
      StatsKept(collect.session, script.resources);
      StatsKept(AfterStop(collect.session).session, script.resources);
    }
  }

  /** Stopping and closing leave the statistics alone. */
  lemma StatsKept(s: Session, resources: Failure)
    ensures AfterStop(s).session.stats == AfterClose(s, resources).session.stats == s.stats
  {
  }

  lemma FailedStartIsClean(issue: Attach, complete: Attach)
    ensures AfterStart(NEW_SESSION, issue, complete).failure.Some? <==> !(issue.Attached? && complete.Attached?)
  {
    if issue.Attached? && !complete.Attached? {
      var attachErr := AttachError("complete_attach", COMPLETE_OPERATION, complete);
      var cleanup := Some(Stage(CLEANUP_FAILED, "cleanup", "detach block_rq_issue after partial attach", issue.closeResult));
      JoinTwo(Some(attachErr), cleanup);
    }
  }

  lemma SourceIsSafe(script: Script)
    ensures var calls := SourceCalls(script); AllSafe(calls[..|calls| - 1])
  {
    var calls := SourceCalls(script);
    var front := calls[..|calls| - 1];
    assert front[..0] == [];
    assert forall i :: 0 < i < |front| ==> !front[i].StartCall?;
    assert SafeAt(front, 0);
    forall i | 0 <= i < |front|
      ensures SafeAt(front, i)
    {
    }
  }

  /** Whatever step of a collection fails or is cancelled, every link it obtained is closed
      exactly once, and so are the resources. */
  lemma CollectionReleasesEverything(script: Script, s: Session)
    requires s == Run(SourceCalls(script))
    ensures forall id: nat :: Closings(s.log, id) == Obtainings(s.log, id) <= 1
    ensures ResourceClosings(s.log) == 1
  {
    var calls := SourceCalls(script);
    SourceIsSafe(script);
    var front := calls[..|calls| - 1];
    assert calls == front + [CloseCall(script.resources)];
    ClosedRunLeaksNothing(front, script.resources, s);
    ClosedAtMostOnce(calls);
    assert CloseCalls(calls) > 0;
  }

  /** Detaching two fresh links reports no error exactly when neither does. */
  lemma CleanStop(s: Session, issue: Link, complete: Link)
    requires !s.stopped && s.issueLink == Some(issue) && s.completeLink == Some(complete)
    ensures AfterStop(s).failure.None? <==> issue.closeResult.None? && complete.closeResult.None?
  {
    JoinTwo(issue.closeResult, complete.closeResult);
  }

  lemma StartNeverReads(issue: Attach, complete: Attach)
    ensures StatsRead !in AfterStart(NEW_SESSION, issue, complete).session.log
  {
  }

  lemma CloseNeverReads(s: Session, resources: Failure)
    requires StatsRead !in s.log
    ensures StatsRead !in AfterClose(s, resources).session.log
  {
  }

  lemma FailedStartNeverReads(script: Script)
    requires AfterStart(NEW_SESSION, script.issue, script.complete).failure.Some?
    ensures StatsRead !in Run(SourceCalls(script)).log
  {
    SourceRun(script);
    StartNeverReads(script.issue, script.complete);
    CloseNeverReads(AfterStart(NEW_SESSION, script.issue, script.complete).session, script.resources);
  }

  /** The result of stopping is the one of stopping right after the start. */
  lemma SourceStopResult(script: Script)
    requires AfterStart(NEW_SESSION, script.issue, script.complete).failure.None?
    ensures Run(SourceCalls(script)).stopErr
            == AfterStop(AfterStart(NEW_SESSION, script.issue, script.complete).session).failure
  {
    SourceRun(script);
    var start := AfterStart(NEW_SESSION, script.issue, script.complete).session;
    var collect := AfterCollect(start, script.cancelled, script.read).session;
    if script.cancelled.None? {
      assert collect.stopped && collect.stopErr == AfterStop(start).failure;
    }
    StopResult(AfterStop(collect).session, CloseCall(script.resources));
  }

  lemma SourceReadsDetached(script: Script)
    ensures ReadsDetached(Run(SourceCalls(script)).log)
  {
    var calls := SourceCalls(script);
    SourceIsSafe(script);
    AllSafeFront(calls);
    ReadAfterDetach(calls);
  }

  /** A collection reads the maps only with every link detached, and only when both links
      were obtained and detaching them reported no error. */
  lemma CollectionReadsDetached(script: Script)
    ensures ReadsDetached(Run(SourceCalls(script)).log)
    ensures StatsRead in Run(SourceCalls(script)).log
            ==> script.issue == Attached(None) && script.complete == Attached(None)
  {
    SourceReadsDetached(script);
    ReadAfterCleanStop(SourceCalls(script));
    FailedStartIsClean(script.issue, script.complete);
    if AfterStart(NEW_SESSION, script.issue, script.complete).failure.Some? {
      FailedStartNeverReads(script);
    } else {
      SourceStopResult(script);
      var start := AfterStart(NEW_SESSION, script.issue, script.complete).session;
      CleanStop(start, start.issueLink.value, start.completeLink.value);
    }
  }

  // ----- cleanup never masks the cause -----

  lemma WithCloseStages(failure: Failure, close: Failure)
    ensures StagesOf(WithClose(failure, close)) == StagesOf(failure) + StagesOf(ClassifyCleanup(CLOSE_OPERATION, close))
  {
    JoinTwo(failure, ClassifyCleanup(CLOSE_OPERATION, close));
  }

  /** The stage reported for a cause is its own, whatever later steps return. */
  lemma CauseWins(cause: Failure, rest: seq<Error>, failure: Failure)
    requires HasCause(StagesOf(cause)) && StagesOf(failure) == StagesOf(cause) + rest
    ensures Primary(StagesOf(failure)) == Primary(StagesOf(cause))
    ensures ErrorStage(failure) == ErrorStage(cause)
  {
    PrimaryOfConcat(StagesOf(cause), rest);
    assert Primary(StagesOf(cause)).value in StagesOf(cause);
  }

  lemma StartCauseIsReported(cause: Failure, close: Failure)
    requires cause.Some? && (StagesOf(cause) == [] || HasCause(StagesOf(cause)))
    ensures ErrorStage(StartReport(cause, close))
            == ErrorStage(ClassifyLifecycle("start_failed", START_OPERATION, cause))
    ensures Primary(StagesOf(StartReport(cause, close)))
            == Primary(StagesOf(ClassifyLifecycle("start_failed", START_OPERATION, cause)))
  {
    var startErr := ClassifyLifecycle("start_failed", START_OPERATION, cause);
    assert "start_failed"[0] != CLEANUP_FAILED[0];
    ClassifiedCause("start_failed", START_OPERATION, cause);
    WithCloseStages(startErr, close);
    CauseWins(startErr, StagesOf(ClassifyCleanup(CLOSE_OPERATION, close)), StartReport(cause, close));
  }

  lemma JoinedCauseWins(collectErr: Failure, stopErr: Failure, close: Failure)
    requires HasCause(StagesOf(collectErr))
    ensures ErrorStage(WithClose(Join([collectErr, stopErr]), close)) == ErrorStage(collectErr)
  {
    JoinTwo(collectErr, stopErr);
    WithCloseStages(Join([collectErr, stopErr]), close);
    var rest := StagesOf(stopErr) + StagesOf(ClassifyCleanup(CLOSE_OPERATION, close));
    var failure := WithClose(Join([collectErr, stopErr]), close);
    assert StagesOf(failure) == StagesOf(collectErr) + rest;
    CauseWins(collectErr, rest, failure);
  }

  /** A start or a collection that fails, and not merely in cleaning up, is reported under
      the stage of its cause whatever stopping and closing return. */
  lemma CauseIsReported(cause: Failure, stop: Failure, close: Failure)
    requires cause.Some? && (StagesOf(cause) == [] || HasCause(StagesOf(cause)))
    ensures ErrorStage(StartReport(cause, close))
            == ErrorStage(ClassifyLifecycle("start_failed", START_OPERATION, cause))
    ensures ErrorStage(CollectReport(cause, stop, close))
            == ErrorStage(ClassifyLifecycle("collection_failed", COLLECT_OPERATION, cause))
  {
    StartCauseIsReported(cause, close);
    assert "collection_failed"[1] != CLEANUP_FAILED[1];
    ClassifiedCause("collection_failed", COLLECT_OPERATION, cause);
    JoinedCauseWins(ClassifyLifecycle("collection_failed", COLLECT_OPERATION, cause),
                    ClassifyCleanup(STOP_OPERATION, stop), close);
  }

  // ----- the stage of every collection -----

  /** A failed start names the program that did not attach, first and not as a cleanup. */
  lemma StartStages(issue: Attach, complete: Attach)
    requires !(issue.Attached? && complete.Attached?)
    ensures var stages := StagesOf(AfterStart(NEW_SESSION, issue, complete).failure);
            && stages != [] && !Cleanup(stages[0])
            && stages[0].stage == if issue.Attached? then "complete_attach" else "issue_attach"
  {
    AttachStatuses();
    if issue.Attached? {
      var attachErr := AttachError("complete_attach", COMPLETE_OPERATION, complete);
      if issue.closeResult.Some? {
        var cleanup := Some(Stage(CLEANUP_FAILED, "cleanup", "detach block_rq_issue after partial attach", issue.closeResult));
        JoinTwo(Some(attachErr), cleanup);
      }
    }
  }

  /** No step is reported with the status of a cleanup failure. */
  lemma AttachStatuses()
    ensures "permission_denied" != CLEANUP_FAILED && "typed_tracepoint_missing" != CLEANUP_FAILED
    ensures "attach_failed" != CLEANUP_FAILED && "map_layout_mismatch" != CLEANUP_FAILED
    ensures "map_read_failed" != CLEANUP_FAILED
  {
    assert |CLEANUP_FAILED| == 14 && |"permission_denied"| == 17 && |"typed_tracepoint_missing"| == 24;
    assert |"attach_failed"| == 13 && |"map_layout_mismatch"| == 19 && |"map_read_failed"| == 15;
  }

  lemma FirstIsPrimary(failure: Failure)
    requires StagesOf(failure) != [] && !Cleanup(StagesOf(failure)[0]) && StagesOf(failure)[0].stage != ""
    ensures HasCause(StagesOf(failure)) && ErrorStage(failure) == StagesOf(failure)[0].stage
    ensures Primary(StagesOf(failure)) == Some(StagesOf(failure)[0])
  {
    FirstCause(StagesOf(failure), 0);
  }

  lemma CollectionOfFailedStart(script: Script)
    requires !(script.issue.Attached? && script.complete.Attached?)
    ensures ErrorStage(SourceFailure(script)) == if script.issue.Attached? then "complete_attach" else "issue_attach"
  {
    var start := AfterStart(NEW_SESSION, script.issue, script.complete);
    FailedStartIsClean(script.issue, script.complete);
    StartStages(script.issue, script.complete);
    FirstIsPrimary(start.failure);
    StartCauseIsReported(start.failure, AfterClose(start.session, script.resources).failure);
  }

  lemma CleanupOnly(operation: string, failure: Failure)
    requires failure.None? || (failure.value.Stage? && failure.value.status == CLEANUP_FAILED)
    ensures ClassifyCleanup(operation, failure) == failure && !HasCause(StagesOf(failure))
  {
    if failure.Some? { assert Cleanup(StagesOf(failure)[0]); }
  }

  /** What stopping and closing a session return is nothing or a cleanup failure. */
  lemma SessionFailures(s: Session, resources: Failure)
    requires !s.closed && (!s.stopped || s.stopErr.None? || (s.stopErr.value.Stage? && s.stopErr.value.status == CLEANUP_FAILED))
    ensures var stop, close := AfterStop(s).failure, AfterClose(s, resources).failure;
            && (stop.None? || (stop.value.Stage? && stop.value.status == CLEANUP_FAILED && stop.value.stage == "cleanup")
                || stop == s.stopErr)
            && (close.None? || (close.value.Stage? && close.value.status == CLEANUP_FAILED && close.value.stage == "cleanup"))
            && (close.None? <==> stop.None? && resources.None?)
  {
    JoinTwo(AfterStop(s).failure, resources);
  }

  /** Later cleanup failures do not change the stage that is reported. */
  lemma CleanupAddsNothing(first: Failure, rest: seq<Error>, total: Failure)
    requires StagesOf(first) != [] && !HasCause(rest) && StagesOf(total) == StagesOf(first) + rest
    ensures ErrorStage(total) == ErrorStage(first) && Primary(StagesOf(total)) == Primary(StagesOf(first))
  {
    PrimaryOfConcat(StagesOf(first), rest);
    if !HasCause(StagesOf(first)) { NoCause(StagesOf(first)); }
    assert Primary(StagesOf(first)).value in StagesOf(first);
  }

  lemma NoCauseConcat(xs: seq<Error>, ys: seq<Error>)
    requires !HasCause(xs) && !HasCause(ys)
    ensures !HasCause(xs + ys)
  {
  }

  /** A failed collection is reported under its own stage when stopping and closing report
      only cleanup failures. */
  lemma CollectStage(collect: Failure, stop: Failure, close: Failure)
    requires collect.Some?
    requires stop.None? || (stop.value.Stage? && stop.value.status == CLEANUP_FAILED)
    requires close.None? || (close.value.Stage? && close.value.status == CLEANUP_FAILED)
    ensures ErrorStage(CollectReport(collect, stop, close))
            == ErrorStage(ClassifyLifecycle("collection_failed", COLLECT_OPERATION, collect))
    ensures Primary(StagesOf(CollectReport(collect, stop, close)))
            == Primary(StagesOf(ClassifyLifecycle("collection_failed", COLLECT_OPERATION, collect)))
  {
    var collectErr := ClassifyLifecycle("collection_failed", COLLECT_OPERATION, collect);
    assert "collection_failed"[1] != CLEANUP_FAILED[1];
    ClassifiedCause("collection_failed", COLLECT_OPERATION, collect);
    CleanupOnly(STOP_OPERATION, stop);
    CleanupOnly(CLOSE_OPERATION, close);
    JoinTwo(collectErr, stop);
    WithCloseStages(Join([collectErr, stop]), close);
    NoCauseConcat(StagesOf(stop), StagesOf(close));
    assert StagesOf(CollectReport(collect, stop, close)) == StagesOf(collectErr) + (StagesOf(stop) + StagesOf(close));
    CleanupAddsNothing(collectErr, StagesOf(stop) + StagesOf(close), CollectReport(collect, stop, close));
  }

  /** The session of a script after its successful start. */
  function Started(script: Script): Session {
    AfterStart(NEW_SESSION, script.issue, script.complete).session
  }

  lemma StartedHolds(script: Script)
    requires script.issue.Attached? && script.complete.Attached?
    ensures var s := Started(script);
            && !s.stopped && !s.closed
            && (AfterStop(s).failure.None? <==> script.issue.closeResult.None? && script.complete.closeResult.None?)
  {
    var s := Started(script);
    CleanStop(s, s.issueLink.value, s.completeLink.value);
  }

  /** The failures of the four calls of a collection whose start succeeded. */
  lemma CollectionFailures(script: Script)
    requires script.issue.Attached? && script.complete.Attached?
    ensures var collect := AfterCollect(Started(script), script.cancelled, script.read);
            var stop := AfterStop(collect.session);
            var close := AfterClose(stop.session, script.resources);
            && SourceFailure(script) == CollectReport(collect.failure, stop.failure, close.failure)
            && (stop.failure.None? || (stop.failure.value.Stage? && stop.failure.value.status == CLEANUP_FAILED))
            && (close.failure.None? || (close.failure.value.Stage? && close.failure.value.status == CLEANUP_FAILED
                                        && close.failure.value.stage == "cleanup"))
            && (close.failure.None? <==> stop.failure.None? && script.resources.None?)
  {
    FailedStartIsClean(script.issue, script.complete);
    StartedHolds(script);
    var collect := AfterCollect(Started(script), script.cancelled, script.read).session;
    SessionFailures(Started(script), script.resources);
    assert !collect.closed && (collect.stopped ==> collect.stopErr == AfterStop(Started(script)).failure);
    SessionFailures(collect, script.resources);
    var stop := AfterStop(collect).session;
    SessionFailures(stop, script.resources);
  }

  predicate NothingFails(script: Script) {
    && script.issue == script.complete == Attached(None)
    && script.cancelled.None? && script.read.None? && script.resources.None?
  }

  /** Where a collection is reported to have failed. */
  function ExpectedStage(script: Script): string {
    if !script.issue.Attached? then "issue_attach"
    else if !script.complete.Attached? then "complete_attach"
    else if script.cancelled.Some? then
      ErrorStage(ClassifyLifecycle("collection_failed", COLLECT_OPERATION, script.cancelled))
    else if script.issue.closeResult.Some? || script.complete.closeResult.Some? then "cleanup"
    else if script.read.Some? then "map_read"
    else if script.resources.Some? then "cleanup"
    else "unknown"
  }

  lemma OneStage(e: Error)
    requires e.Stage? && e.stage != ""
    ensures ErrorStage(Some(e)) == e.stage && Primary(StagesOf(Some(e))) == Some(e)
    ensures StagesOf(Some(e)) == [e]
  {
    if Cleanup(e) { NoCause([e]); } else { FirstCause([e], 0); }
  }

  /** The stage of what collecting returned. */
  lemma CollectedStage(script: Script)
    requires script.issue.Attached? && script.complete.Attached?
    requires AfterCollect(Started(script), script.cancelled, script.read).failure.Some?
    ensures ErrorStage(ClassifyLifecycle("collection_failed", COLLECT_OPERATION,
                                         AfterCollect(Started(script), script.cancelled, script.read).failure))
            == ExpectedStage(script)
  {
    StartedHolds(script);
    var collect := AfterCollect(Started(script), script.cancelled, script.read).failure;
    if script.cancelled.None? {
      OneStage(collect.value);
    }
  }

  lemma ReportedAtAll(collect: Failure, stop: Failure, close: Failure)
    ensures CollectReport(collect, stop, close).None? <==> collect.None? && stop.None? && close.None?
  {
    var collectErr := ClassifyLifecycle("collection_failed", COLLECT_OPERATION, collect);
    JoinTwo(collectErr, ClassifyCleanup(STOP_OPERATION, stop));
    JoinTwo(Join([collectErr, ClassifyCleanup(STOP_OPERATION, stop)]), ClassifyCleanup(CLOSE_OPERATION, close));
  }

  /** Only closing failed. */
  lemma ClosedStage(close: Error)
    requires close.Stage? && close.status == CLEANUP_FAILED && close.stage == "cleanup"
    ensures ErrorStage(CollectReport(None, None, Some(close))) == "cleanup"
    ensures Primary(StagesOf(CollectReport(None, None, Some(close)))) == Some(close)
  {
    CleanupOnly(CLOSE_OPERATION, Some(close));
    JoinTwo(None, None);
    JoinTwo(None, Some(close));
    OneStage(close);
    assert [] + [close] == [close];
    assert Cleanup([close][0]);
  }

  lemma CollectionOfStarted(script: Script)
    requires script.issue.Attached? && script.complete.Attached?
    ensures ErrorStage(SourceFailure(script)) == ExpectedStage(script)
    ensures SourceFailure(script).None? <==> NothingFails(script)
  {
    CollectionFailures(script);
    StartedHolds(script);
    var collect := AfterCollect(Started(script), script.cancelled, script.read);
    var stop := AfterStop(collect.session).failure;
    var close := AfterClose(AfterStop(collect.session).session, script.resources).failure;
    ReportedAtAll(collect.failure, stop, close);
    if collect.failure.Some? {
      CollectStage(collect.failure, stop, close);
      CollectedStage(script);
    } else if close.Some? {
      ClosedStage(close.value);
    }
  }

  lemma PlainCancellation(script: Script)
    requires script.cancelled.Some? && StagesOf(script.cancelled) == [] && script.issue.Attached? && script.complete.Attached?
    ensures ExpectedStage(script) == "collection"
  {
    assert |"cancelled"| == 9 && |"deadline_exceeded"| == 17 && |"collection_failed"| == 17 && |CLEANUP_FAILED| == 14;
    FirstIsPrimary(ClassifyLifecycle("collection_failed", COLLECT_OPERATION, script.cancelled));
  }

  /** For every choice of failing or cancelled steps, the collection is reported under the
      stage of the first step that failed, whatever stopping and closing returned after it;
      a cancellation that names no stage is reported as the collection's. */
  lemma ReportedStage(script: Script)
    ensures ErrorStage(SourceFailure(script)) == ExpectedStage(script)
    ensures SourceFailure(script).None? <==> NothingFails(script)
    ensures script.cancelled.Some? && StagesOf(script.cancelled) == [] && script.issue.Attached? && script.complete.Attached?
            ==> ExpectedStage(script) == "collection"
  {
    if script.issue.Attached? && script.complete.Attached? {
      CollectionOfStarted(script);
      if script.cancelled.Some? && StagesOf(script.cancelled) == [] { PlainCancellation(script); }
    } else {
      CollectionOfFailedStart(script);
      FailedStartIsClean(script.issue, script.complete);
    }
  }

  // ----- the error of every collection -----

  /** An attach error as it is published. */
  function AttachReport(stage: string, operation: string, a: Attach): Error
    requires !a.Attached?
  {
    var cause := if a.NilLink? then NIL_LINK else a.error;
    Stage(
      if a.NilLink? then "attach_failed"
      else if Has(a.error, Permission) then "permission_denied"
      else if Has(a.error, NotExist) then "typed_tracepoint_missing" else "attach_failed",
      stage, operation, Some(cause))
  }

  /** A cancellation as it is published: by its own stage, or as the collection's. */
  function CancelReport(cancelled: Failure): Failure {
    if StagesOf(cancelled) != [] then Primary(StagesOf(cancelled))
    else if Is(cancelled, Cancelled) then
      Some(Stage("cancelled", "collection", "per-VM eBPF collection cancelled", cancelled))
    else if Is(cancelled, DeadlineExceeded) then
      Some(Stage("deadline_exceeded", "collection", "per-VM eBPF collection deadline exceeded", cancelled))
    else Some(Stage("collection_failed", "collection", "collect per-VM eBPF events", cancelled))
  }

  function ReadReport(read: Failure): Error {
    Stage(
      if Is(read, MapLayout) then "map_layout_mismatch"
      else if Is(read, Permission) then "permission_denied" else "map_read_failed",
      "map_read", "read typed-BTF request-latency maps", read)
  }

  function CleanupReport(operation: string, first: Failure, second: Failure): Error {
    Stage("cleanup_failed", "cleanup", operation, Join([first, second]))
  }

  /** The error a collection is reported under. */
  function ExpectedError(script: Script): Failure {
    if !script.issue.Attached? then
      Some(AttachReport("issue_attach", "attach block_rq_issue typed-BTF program", script.issue))
    else if !script.complete.Attached? then
      Some(AttachReport("complete_attach", "attach block_rq_complete typed-BTF program", script.complete))
    else if script.cancelled.Some? then CancelReport(script.cancelled)
    else if script.issue.closeResult.Some? || script.complete.closeResult.Some? then
      Some(CleanupReport("detach typed-BTF request-correlation links", script.issue.closeResult, script.complete.closeResult))
    else if script.read.Some? then Some(ReadReport(script.read))
    else if script.resources.Some? then
      Some(CleanupReport("close typed-BTF request-correlation resources", None, script.resources))
    else None
  }

  lemma ErrorOfFailedStart(script: Script)
    requires !(script.issue.Attached? && script.complete.Attached?)
    ensures Primary(StagesOf(SourceFailure(script))) == ExpectedError(script)
  {
    var start := AfterStart(NEW_SESSION, script.issue, script.complete);
    FailedStartIsClean(script.issue, script.complete);
    StartStages(script.issue, script.complete);
    FirstIsPrimary(start.failure);
    StartCauseIsReported(start.failure, AfterClose(start.session, script.resources).failure);
    FirstStartStage(script.issue, script.complete);
  }

  lemma FirstStartStage(issue: Attach, complete: Attach)
    requires !(issue.Attached? && complete.Attached?)
    ensures var stages := StagesOf(AfterStart(NEW_SESSION, issue, complete).failure);
            stages != [] && stages[0] == if issue.Attached? then AttachReport("complete_attach", COMPLETE_OPERATION, complete)
                                         else AttachReport("issue_attach", ISSUE_OPERATION, issue)
  {
    if issue.Attached? && issue.closeResult.Some? {
      JoinTwo(Some(AttachError("complete_attach", COMPLETE_OPERATION, complete)),
              Some(Stage(CLEANUP_FAILED, "cleanup", "detach block_rq_issue after partial attach", issue.closeResult)));
    }
  }

  lemma ErrorOfCancellation(cancelled: Failure)
    requires cancelled.Some?
    ensures Primary(StagesOf(ClassifyLifecycle("collection_failed", COLLECT_OPERATION, cancelled))) == CancelReport(cancelled)
  {
    if StagesOf(cancelled) == [] {
      OneStage(ClassifyLifecycle("collection_failed", COLLECT_OPERATION, cancelled).value);
    }
  }

  lemma ErrorOfCollect(script: Script)
    requires script.issue.Attached? && script.complete.Attached?
    requires AfterCollect(Started(script), script.cancelled, script.read).failure.Some?
    ensures Primary(StagesOf(ClassifyLifecycle("collection_failed", COLLECT_OPERATION,
                                               AfterCollect(Started(script), script.cancelled, script.read).failure)))
            == ExpectedError(script)
  {
    StartedHolds(script);
    if script.cancelled.Some? {
      ErrorOfCancellation(script.cancelled);
    } else {
      OneStage(AfterCollect(Started(script), script.cancelled, script.read).failure.value);
    }
  }

  lemma ErrorOfStarted(script: Script)
    requires script.issue.Attached? && script.complete.Attached?
    ensures Primary(StagesOf(SourceFailure(script))) == ExpectedError(script)
  {
    CollectionFailures(script);
    StartedHolds(script);
    var collect := AfterCollect(Started(script), script.cancelled, script.read);
    var stop := AfterStop(collect.session).failure;
    var close := AfterClose(AfterStop(collect.session).session, script.resources).failure;
    ReportedAtAll(collect.failure, stop, close);
    if collect.failure.Some? {
      CollectStage(collect.failure, stop, close);
      ErrorOfCollect(script);
    } else if close.Some? {
      ClosedStage(close.value);
    }
  }

  /** For every choice of failing or cancelled steps, the error that is reported: status,
      stage, operation and cause, whatever stopping and closing returned after it. */
  lemma ReportedError(script: Script)
    ensures Primary(StagesOf(SourceFailure(script))) == ExpectedError(script)
  {
    if script.issue.Attached? && script.complete.Attached? {
      ErrorOfStarted(script);
    } else {
      ErrorOfFailedStart(script);
    }
  }
}
