/** The match predicates of the `tag`/`statetag`, `duration` and status-error
    conditions. */
module Predicates {
  import opened Types

  /** A `tag`/`statetag` condition; `paramLong` is the tag index its
      constructor resolved from the option. */
  class TagCondition {
    var verdict: Verdict
    var param: string
    var paramLong: int

    /** Matches exactly when the resolved tag is among the properties the
        model reports for the current state; nothing changes. */
    method Match(h: Heuristic) returns (r: bool)
      ensures r <==> paramLong in h.model.props
    {
      var t := h.model.props;
      var i := 0;
      while i < |t|
        invariant 0 <= i <= |t|
        invariant forall j :: 0 <= j < i ==> t[j] != paramLong
      {
        if t[i] == paramLong {
          return true;
        }
        i := i + 1;
      }
      return false;
    }
  }

  /** The duration test against the adapter clock `now`, for a threshold of
      `paramTime` seconds and `paramLong` microseconds. The second after the
      threshold second never matches. */
  predicate DurationReached(now: Time, paramTime: int, paramLong: int): (r: bool)
    ensures r ==> now.sec >= paramTime
    ensures now.sec == paramTime + 1 ==> !r
  {
    now.sec > paramTime + 1 || (now.sec == paramTime && now.usec >= paramLong)
  }

  /** A `duration` condition with its threshold as parsed by its
      constructor. */
  class DurationCondition {
    var verdict: Verdict
    var param: string
    var paramTime: int
    var paramLong: int

    predicate Match(now: Time)
      reads this
    {
      DurationReached(now, paramTime, paramLong)
    }
  }

  /** Before the threshold second nothing matches. */
  lemma DurationFalseBefore(now: Time, paramTime: int, paramLong: int)
    requires now.sec < paramTime
    ensures !DurationReached(now, paramTime, paramLong)
  {
  }

  /** In the threshold second, the microseconds decide. */
  lemma DurationAtThresholdSecond(now: Time, paramTime: int, paramLong: int)
    requires now.sec == paramTime
    ensures DurationReached(now, paramTime, paramLong) <==> now.usec >= paramLong
  {
  }

  /** The second after the threshold second never matches, whatever the
      microseconds. */
  lemma DurationFalseInGraceSecond(now: Time, paramTime: int, paramLong: int)
    requires now.sec == paramTime + 1
    ensures !DurationReached(now, paramTime, paramLong)
  {
  }

  /** From two seconds past the threshold on, it always matches. */
  lemma DurationTrueAfterGrace(now: Time, paramTime: int, paramLong: int)
    requires now.sec >= paramTime + 2
    ensures DurationReached(now, paramTime, paramLong)
  {
  }

  /** The test is not monotone in time: a clock reading that matches can be
      followed by a later one that does not. */
  lemma DurationNotMonotone(paramTime: int, paramLong: int)
    ensures DurationReached(Time(paramTime, paramLong), paramTime, paramLong)
    ensures !DurationReached(Time(paramTime + 1, paramLong), paramTime, paramLong)
  {
  }

  /** The collaborators the status-error condition consults, in the order it
      consults them. */
  datatype Collaborator = HeuristicPart | ModelPart | CoveragePart

  /** The first collaborator, in priority order, that reports a failure. */
  function FirstFailure(h: Heuristic): (f: Option<Collaborator>)
    ensures f.None? <==> h.status && h.model.status && h.coverage.status
    ensures f == Some(HeuristicPart) <==> !h.status
    ensures f == Some(ModelPart) <==> h.status && !h.model.status
    ensures f == Some(CoveragePart) <==> h.status && h.model.status && !h.coverage.status
  {
    if !h.status then Some(HeuristicPart)
    else if !h.model.status then Some(ModelPart)
    else if !h.coverage.status then Some(CoveragePart)
    else None
  }

  function ErrorPrefix(c: Collaborator): string
  {
    match c
    case HeuristicPart => "Heuristic error: "
    case ModelPart => "Model error: "
    case CoveragePart => "Coverage error: "
  }

  function ErrorMessage(h: Heuristic, c: Collaborator): string
  {
    match c
    case HeuristicPart => h.errormsg
    case ModelPart => h.model.errormsg
    case CoveragePart => h.coverage.errormsg
  }

  /** The explanation of a status error names the collaborator that failed:
      two explanations that are equal come from the same collaborator with
      the same message. */
  lemma ErrorTextIdentifiesCollaborator(c1: Collaborator, m1: string, c2: Collaborator, m2: string)
    requires ErrorPrefix(c1) + m1 == ErrorPrefix(c2) + m2
    ensures c1 == c2 && m1 == m2
  {
    var s1, s2 := ErrorPrefix(c1) + m1, ErrorPrefix(c2) + m2;
    assert s1[0] == ErrorPrefix(c1)[0] && s2[0] == ErrorPrefix(c2)[0];
    assert s1[1] == ErrorPrefix(c1)[1] && s2[1] == ErrorPrefix(c2)[1];
    assert c1 == c2;
    var k := |ErrorPrefix(c1)|;
    assert m1 == s1[k..] && m2 == s2[k..];
  }

  /** The status-error condition; `er` holds the explanation of its last
      match. */
  class StatusErrorCondition {
    var verdict: Verdict
    var param: string
    var er: string

    /** Matches exactly when the heuristic, the model or the coverage
        reports a failure, and then explains the first of them in that
        order; a non-matching call leaves the explanation as it was. */
    method Match(h: Heuristic) returns (r: bool)
      modifies this`er
      ensures r <==> !(h.status && h.model.status && h.coverage.status)
      ensures r ==> er == ErrorPrefix(FirstFailure(h).value) + ErrorMessage(h, FirstFailure(h).value)
      ensures !r ==> er == old(er)
    {
      if !h.status {
        er := "Heuristic error: " + h.errormsg;
        return true;
      }
      if !h.model.status {
        er := "Model error: " + h.model.errormsg;
        return true;
      }
      if !h.coverage.status {
        er := "Coverage error: " + h.coverage.errormsg;
        return true;
      }
      return false;
    }
  }
}
