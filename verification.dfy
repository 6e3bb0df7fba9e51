/**
 * Per-node outcomes and the tally they are folded into (VerificationResults, which both
 * copies of BetaEvolutionsUtils declare identically).
 */
module Verification {
  import opened Web
  import opened Seqs
  import opened JavaText

  /** The Boolean a node attempt returns: true, false or null. */
  datatype Outcome = Verified | Rejected | Indeterminate

  /** The outcome of one node attempt together with the URLs it requested, in order. */
  datatype Attempt = Attempt(outcome: Outcome, trace: seq<Url>)

  /** The three counters of a VerificationResults. */
  datatype Tally = Tally(successful: int, failed: int, errored: int)
  {
    /** getTotal */
    function Total(): int
    {
      errored + successful + failed
    }
  }

  /** authenticateWithMojang's reading of the session service's first line: "ok" in any case
      is true, any other line false, an exception or no line at all null. */
  function SessionVerdict(reply: LineReply): (o: Outcome)
    ensures o == Verified <==> reply in {Line("ok"), Line("oK"), Line("Ok"), Line("OK")}
    ensures o == Indeterminate <==> !reply.Line?
  {
    match reply
    case Line(response) =>
      OkIgnoringCase(response);
      if EqualsIgnoreCase(response, "ok") then Verified else Rejected
    case _ => Indeterminate
  }

  /** One step of the fold: null adds an error, true a success, false a failure. */
  function Record(t: Tally, o: Outcome): Tally
  {
    match o
    case Indeterminate => t.(errored := t.errored + 1)
    case Verified => t.(successful := t.successful + 1)
    case Rejected => t.(failed := t.failed + 1)
  }

  /** The tally of a sequence of outcomes folded in order from a zero tally. */
  function TallyOf(outcomes: seq<Outcome>): Tally
  {
    if |outcomes| == 0 then Tally(0, 0, 0)
    else Record(TallyOf(outcomes[..|outcomes| - 1]), outcomes[|outcomes| - 1])
  }

  /** Each outcome adds exactly one unit, so the total is the number of outcomes. */
  lemma {:induction false} TallyTotal(outcomes: seq<Outcome>)
    ensures TallyOf(outcomes).Total() == |outcomes|
    decreases |outcomes|
  {
    if |outcomes| > 0 {
      TallyTotal(outcomes[..|outcomes| - 1]);
    }
  }

  /** Each counter is the number of times its outcome occurs. */
  lemma {:induction false} TallyCountsOutcomes(outcomes: seq<Outcome>)
    ensures TallyOf(outcomes) == Tally(
      multiset(outcomes)[Verified], multiset(outcomes)[Rejected], multiset(outcomes)[Indeterminate])
    decreases |outcomes|
  {
    if |outcomes| > 0 {
      var init := outcomes[..|outcomes| - 1];
      TallyCountsOutcomes(init);
      assert outcomes == init + [outcomes[|outcomes| - 1]];
    }
  }

  /** The tally does not depend on the order in which the outcomes arrive. */
  lemma TallyOrderIndependent(a: seq<Outcome>, b: seq<Outcome>)
    requires multiset(a) == multiset(b)
    ensures TallyOf(a) == TallyOf(b)
  {
    TallyCountsOutcomes(a);
    TallyCountsOutcomes(b);
  }

  function OutcomeOf(a: Attempt): Outcome
  {
    a.outcome
  }

  function OutcomesOf(attempts: seq<Attempt>): seq<Outcome>
  {
    MapSeq(OutcomeOf, attempts)
  }

  /** One unit per attempt: the tally of a run over n attempts totals n. */
  lemma AttemptsTotal(attempts: seq<Attempt>)
    ensures TallyOf(OutcomesOf(attempts)).Total() == |attempts|
  {
    TallyTotal(OutcomesOf(attempts));
  }

  /** Attempts that are a permutation of each other give the same tally. */
  lemma AttemptsOrderIndependent(a: seq<Attempt>, b: seq<Attempt>)
    requires multiset(a) == multiset(b)
    ensures TallyOf(OutcomesOf(a)) == TallyOf(OutcomesOf(b))
  {
    MapPermutation(OutcomeOf, a, b);
    TallyOrderIndependent(OutcomesOf(a), OutcomesOf(b));
  }

  /** What an orchestrator run produces: the tally and every URL requested, in order. */
  datatype Run = Run(tally: Tally, trace: seq<Url>)

  /** The URLs requested by a sequence of attempts, one attempt after the other. */
  function TraceOf(attempts: seq<Attempt>): seq<Url>
  {
    if |attempts| == 0 then []
    else TraceOf(attempts[..|attempts| - 1]) + attempts[|attempts| - 1].trace
  }

  /** Appending one attempt extends the outcomes, the tally and the trace by that attempt. */
  lemma AppendAttempt(attempts: seq<Attempt>, a: Attempt)
    ensures OutcomesOf(attempts + [a]) == OutcomesOf(attempts) + [a.outcome]
    ensures TallyOf(OutcomesOf(attempts + [a])) == Record(TallyOf(OutcomesOf(attempts)), a.outcome)
    ensures TraceOf(attempts + [a]) == TraceOf(attempts) + a.trace
  {
    assert (attempts + [a])[..|attempts|] == attempts;
    assert OutcomesOf(attempts + [a])[..|attempts|] == OutcomesOf(attempts);
  }

  /** VerificationResults: the mutable record of successful, failed and errored node counts. */
  class VerificationResults {
    var successful: int
    var failed: int
    var errored: int

    /** The counters as a value. */
    ghost function Counts(): Tally
      reads this
    {
      Tally(successful, failed, errored)
    }

    /** VerificationResults(): all three counters zero. */
    constructor ()
      ensures Counts() == Tally(0, 0, 0)
    {
      successful, failed, errored := 0, 0, 0;
    }

    /** VerificationResults(successful, failed, errored). */
    constructor WithCounts(successful: int, failed: int, errored: int)
      ensures Counts() == Tally(successful, failed, errored)
    {
      this.successful, this.failed, this.errored := successful, failed, errored;
    }

    /** getSuccessful: the successful counter as it stands. */
    function GetSuccessful(): (count: int)
      reads this
      ensures count == Counts().successful
    {
      successful
    }

    /** getFailed: the failed counter as it stands. */
    function GetFailed(): (count: int)
      reads this
      ensures count == Counts().failed
    {
      failed
    }

    /** getErrored: the errored counter as it stands. */
    function GetErrored(): (count: int)
      reads this
      ensures count == Counts().errored
    {
      errored
    }

    method SetSuccessful(successful: int)
      modifies this
      ensures Counts() == old(Counts()).(successful := successful)
    {
      this.successful := successful;
    }

    method SetFailed(failed: int)
      modifies this
      ensures Counts() == old(Counts()).(failed := failed)
    {
      this.failed := failed;
    }

    method SetErrored(errored: int)
      modifies this
      ensures Counts() == old(Counts()).(errored := errored)
    {
      this.errored := errored;
    }

    /** getTotal: the sum of the three counters. */
    function GetTotal(): (total: int)
      reads this
      ensures total == Counts().Total()
    {
      errored + successful + failed
    }
  }

  /** The three-way branch on a node's Boolean answer that every orchestrator loop runs:
      null bumps errored, true bumps successful, false bumps failed. */
  method CountOutcome(results: VerificationResults, result: Outcome)
    modifies results
    ensures results.Counts() == Record(old(results.Counts()), result)
  {
    if result == Indeterminate {
      results.SetErrored(results.GetErrored() + 1);
    } else if result == Verified {
      results.SetSuccessful(results.GetSuccessful() + 1);
    } else if result == Rejected {
      results.SetFailed(results.GetFailed() + 1);
    }
  }
}
