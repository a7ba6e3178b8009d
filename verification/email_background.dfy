/** One iteration of `EmailBackgroundService.ExecuteAsync`, as a pure step: take the head
    job, hand it to the mail transport, and put it back at the tail if sending reported
    failure. The transport's behaviour for the iteration is a `SendOutcome`; the
    one-second delay and cancellation of the loop itself are not modelled. */
module EmailBackgroundService {
  import opened Wrappers
  import opened EmailQueue
  import opened EmailService

  // The loop catches a `Canceled` send; a `Faulted` one escapes `ExecuteAsync` and ends
  // the consumer.

  /** The queue after the iteration, the job handed to the transport (if any), the job
      delivered (if any), the job dequeued and never put back because the send threw (if
      any), and whether the loop has ended. */
  datatype Iteration = Iteration(
    queue: seq<EmailJob>,
    attempted: Option<EmailJob>,
    delivered: Option<EmailJob>,
    lost: Option<EmailJob>,
    stopped: bool)

  /** The jobs an optional job stands for. */
  function Jobs(job: Option<EmailJob>): multiset<EmailJob>
  {
    if job.Some? then multiset{job.value} else multiset{}
  }

  function AsSeq(job: Option<EmailJob>): seq<EmailJob>
  {
    if job.Some? then [job.value] else []
  }

  function ExecuteOnce(queue: seq<EmailJob>, outcome: SendOutcome): (it: Iteration)
    ensures |queue| == 0 ==> it == Iteration(queue, None, None, None, false)
    ensures |queue| > 0 ==> it.attempted == Some(queue[0])
    ensures |queue| > 0 && outcome == Sent ==>
      it.queue == queue[1..] && it.delivered == Some(queue[0]) && it.lost.None? && !it.stopped
    ensures |queue| > 0 && outcome == Refused ==>
      it.queue == queue[1..] + [queue[0]] && it.delivered.None? && it.lost.None? && !it.stopped
    ensures |queue| > 0 && (outcome == Canceled || outcome == Faulted) ==>
      it.queue == queue[1..] && it.delivered.None? && it.lost == Some(queue[0])
    ensures it.stopped <==> |queue| > 0 && outcome == Faulted
    ensures multiset(it.queue) + Jobs(it.delivered) + Jobs(it.lost) == multiset(queue)
  {
    match TryDequeue(queue)
    case None => Iteration(queue, None, None, None, false)
    case Some((job, rest)) =>
      match outcome
      case Sent => Iteration(rest, Some(job), Some(job), None, false)
      case Refused => Iteration(QueueEmail(rest, job.emails, job.subject, job.content), Some(job), None, None, false)
      case Canceled => Iteration(rest, Some(job), None, Some(job), false)
      case Faulted => Iteration(rest, Some(job), None, Some(job), true)
  }

  /** What a run of the loop leaves behind: the queue, the jobs delivered and the jobs
      lost, each in order, and whether the consumer ended. */
  datatype Drain = Drain(remaining: seq<EmailJob>, delivered: seq<EmailJob>, lost: seq<EmailJob>, stopped: bool)

  /** The loop run for as many iterations as there are transport outcomes, or until an
      exception other than a cancellation ends it. */
  function Execute(queue: seq<EmailJob>, outcomes: seq<SendOutcome>): (d: Drain)
    decreases |outcomes|
  {
    if |outcomes| == 0 then Drain(queue, [], [], false)
    else
      var it := ExecuteOnce(queue, outcomes[0]);
      if it.stopped then Drain(it.queue, AsSeq(it.delivered), AsSeq(it.lost), true)
      else
        var rest := Execute(it.queue, outcomes[1..]);
        Drain(rest.remaining, AsSeq(it.delivered) + rest.delivered, AsSeq(it.lost) + rest.lost, rest.stopped)
  }

  /** No job is duplicated and none vanishes unaccounted: every job is still queued, was
      delivered, or was lost to a send that threw, exactly once. */
  lemma {:induction false} ExecuteConservesJobs(queue: seq<EmailJob>, outcomes: seq<SendOutcome>)
    ensures var d := Execute(queue, outcomes);
      multiset(d.remaining) + multiset(d.delivered) + multiset(d.lost) == multiset(queue)
    decreases |outcomes|
  {
    if |outcomes| > 0 {
      var it := ExecuteOnce(queue, outcomes[0]);
      assert multiset(AsSeq(it.delivered)) == Jobs(it.delivered);
      assert multiset(AsSeq(it.lost)) == Jobs(it.lost);
      if !it.stopped {
        ExecuteConservesJobs(it.queue, outcomes[1..]);
        var rest := Execute(it.queue, outcomes[1..]);
        assert multiset(AsSeq(it.delivered) + rest.delivered) == Jobs(it.delivered) + multiset(rest.delivered);
        assert multiset(AsSeq(it.lost) + rest.lost) == Jobs(it.lost) + multiset(rest.lost);
      }
    }
  }

  /** While the transport only ever answers, no job is lost and the loop keeps running:
      with `ExecuteConservesJobs`, a job leaves the queue only through a successful send. */
  lemma {:induction false} AnsweringTransportLosesNothing(queue: seq<EmailJob>, outcomes: seq<SendOutcome>)
    requires forall i :: 0 <= i < |outcomes| ==> outcomes[i].Answered()
    ensures Execute(queue, outcomes).lost == []
    ensures !Execute(queue, outcomes).stopped
    decreases |outcomes|
  {
    if |outcomes| > 0 {
      var it := ExecuteOnce(queue, outcomes[0]);
      AnsweringTransportLosesNothing(it.queue, outcomes[1..]);
    }
  }

  /** With a transport that always answers false, the queue keeps every job. */
  lemma {:induction false} FailingTransportDropsNothing(queue: seq<EmailJob>, outcomes: seq<SendOutcome>)
    requires forall i :: 0 <= i < |outcomes| ==> outcomes[i] == Refused
    ensures Execute(queue, outcomes).delivered == []
    ensures Execute(queue, outcomes).lost == []
    ensures multiset(Execute(queue, outcomes).remaining) == multiset(queue)
    decreases |outcomes|
  {
    if |outcomes| > 0 {
      var it := ExecuteOnce(queue, outcomes[0]);
      FailingTransportDropsNothing(it.queue, outcomes[1..]);
    }
  }

  /** A single job whose transport fails three times and then succeeds is attempted four
      times and delivered exactly once. */
  lemma RetryUntilDelivered(job: EmailJob)
    ensures Execute([job], [Refused, Refused, Refused, Sent]) == Drain([], [job], [], false)
  {
    var q := [job];
    assert ExecuteOnce(q, Refused).queue == [job];
    assert ExecuteOnce(q, Sent).queue == [];
    assert [Refused, Refused, Refused, Sent][1..] == [Refused, Refused, Sent];
    assert [Refused, Refused, Sent][1..] == [Refused, Sent];
    assert [Refused, Sent][1..] == [Sent];
    assert [Sent][1..] == [];
  }

  /** A send that throws something other than a cancellation loses the head job and ends
      the consumer: the jobs behind it stay queued and are never attempted, whatever the
      transport would have done next. */
  lemma FaultLosesJobAndStops(job: EmailJob, rest: seq<EmailJob>, later: seq<SendOutcome>)
    ensures Execute([job] + rest, [Faulted] + later) == Drain(rest, [], [job], true)
  {
    assert ([job] + rest)[1..] == rest;
  }

  /** A send that throws an `OperationCanceledException` (a timed-out task, say) loses the
      head job, but the loop catches it and goes on with the next one. */
  lemma CancelLosesJobAndContinues(job: EmailJob, next: EmailJob)
    ensures Execute([job, next], [Canceled, Sent]) == Drain([], [next], [job], false)
  {
    assert [job, next][1..] == [next];
    assert [Canceled, Sent][1..] == [Sent];
  }
}
