/** `EmailQueue`: a first-in first-out queue of mail jobs. */
module EmailQueue {
  import opened Wrappers

  /** One queued job, stored verbatim: recipients, subject and content. */
  datatype EmailJob = EmailJob(emails: seq<string>, subject: string, content: string)

  /** `QueueEmail`: the job goes to the tail; the jobs already queued keep their order. */
  function QueueEmail(queue: seq<EmailJob>, emails: seq<string>, subject: string, content: string): (q: seq<EmailJob>)
    ensures |q| == |queue| + 1
    ensures q[..|queue|] == queue
    ensures q[|queue|] == EmailJob(emails, subject, content)
    ensures multiset(q) == multiset(queue) + multiset{EmailJob(emails, subject, content)}
  {
    queue + [EmailJob(emails, subject, content)]
  }

  /** `TryDequeue`: the head job and the rest of the queue, or nothing when it is empty. */
  function TryDequeue(queue: seq<EmailJob>): (r: Option<(EmailJob, seq<EmailJob>)>)
    ensures r.None? <==> |queue| == 0
    ensures r.Some? ==> [r.value.0] + r.value.1 == queue
  {
    if |queue| == 0 then None else Some((queue[0], queue[1..]))
  }

  /** First in, first out: after queueing a job, the next dequeue returns the job only when
      the queue was empty; otherwise it returns the old head, and the new job stays at the
      tail behind the other waiting jobs. */
  lemma {:induction false} QueueThenDequeue(queue: seq<EmailJob>, emails: seq<string>, subject: string, content: string)
    ensures var r := TryDequeue(QueueEmail(queue, emails, subject, content));
      && r.Some?
      && (|queue| == 0 ==> r.value == (EmailJob(emails, subject, content), []))
      && (|queue| > 0 ==> r.value == (queue[0], QueueEmail(queue[1..], emails, subject, content)))
  {
    if |queue| > 0 {
      assert (queue + [EmailJob(emails, subject, content)])[1..] == queue[1..] + [EmailJob(emails, subject, content)];
    }
  }
}
