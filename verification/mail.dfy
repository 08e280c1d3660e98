/** The SendGrid mailer of services/user-service/mail: one templated mail
    sent under a retry policy, and the same mail sent to many users.
    Template parsing and rendering, and the SendGrid transport, are
    parameters: the first says whether rendering failed, the second what
    each send attempt got back. */
module Mail {
  import opened Errors
  import opened Domain
  import Retry

  const FromName: string := "Relief Ops"
  const MaxRetries: int := 3
  const AdminNotifyTemplate: string := "admin_notify.tmpl"

  /** The policy every Send runs under. */
  function MailRetry(): (c: Retry.RetryConfig)
    ensures c.maxAttempts == MaxRetries && c.initialDelay == 2 * Second
    ensures c.maxDelay == 30 * Second && c.backoffFactor == 2 && c.jitter
  {
    Retry.RetryConfig(MaxRetries, 2 * Second, 30 * Second, 2, true)
  }

  /** A transport reply: the HTTP status code and the response body. */
  datatype Response = Response(status: int, body: string)

  /** One send attempt: success iff the transport returned no error and a
      2xx status; otherwise the transport error, or an error naming the
      status code and body. */
  function SendAttempt(reply: Result<Response>): (r: Outcome)
    ensures r.Pass? <==> reply.Success? && 200 <= reply.value.status < 300
    ensures reply.Failure? ==> r == Fail(reply.error)
    ensures reply.Success? && r.Fail? ==> r.error == MailStatus(reply.value.status, reply.value.body)
  {
    match reply
    case Failure(e) => Fail(e)
    case Success(resp) =>
      if 200 <= resp.status < 300 then Pass else Fail(MailStatus(resp.status, resp.body))
  }

  /** What the collaborators of one Send do: whether parsing and rendering
      the template failed, the reply to the k-th attempt, and the random
      bytes of the backoff jitter. */
  datatype SendOracle = SendOracle(
    render: Outcome,
    replies: nat -> Result<Response>,
    draws: nat -> Option<byte>)

  /** Send's (status code, error) pair and the attempts it made. */
  datatype Sent = Sent(status: int, result: Outcome, attempts: nat)

  /** The retried delivery of a rendered mail, on a context that is never done. */
  function Deliver(o: SendOracle): Retry.Run {
    Retry.RetryWithBackoff(Some(MailRetry()), (k: nat) => SendAttempt(o.replies(k)), Retry.Background(o.draws))
  }

  /** Send: a template failure is returned before any attempt; otherwise
      the mail is delivered under MailRetry. The status code is -1 on every
      path. */
  function Send(o: SendOracle): (s: Sent)
    ensures s.status == -1
    ensures o.render.Fail? ==> s.result == o.render && s.attempts == 0
    ensures o.render.Pass? ==> s.attempts <= MaxRetries
  {
    if o.render.Fail? then Sent(-1, o.render, 0)
    else
      var run := Deliver(o);
      Sent(-1, run.result, run.calls)
  }

  /** Once rendering succeeds, Send tries at least once and at most three
      times, each attempt but the last rejected; the result is nil exactly
      when the last attempt was accepted. */
  lemma SendRetriesUntilAccepted(o: SendOracle)
    requires o.render.Pass?
    ensures var s := Send(o);
            && 1 <= s.attempts <= MaxRetries
            && (forall j :: 1 <= j < s.attempts ==> SendAttempt(o.replies(j)).Fail?)
            && (s.result.Pass? <==> SendAttempt(o.replies(s.attempts)).Pass?)
  {
    var cfg := MailRetry();
    var fn := (k: nat) => SendAttempt(o.replies(k));
    var bg := Retry.Background(o.draws);
    var run := Retry.Loop(cfg, fn, bg, 1, cfg.initialDelay);
    assert Deliver(o) == run;
    Retry.LoopPrefix(cfg, fn, bg, 1, cfg.initialDelay);
    Retry.LoopResult(cfg, fn, bg, 1, cfg.initialDelay);
    assert Retry.LastCall(1, run) == run.calls;
    forall j | 1 <= j < run.calls ensures SendAttempt(o.replies(j)).Fail? {
      assert Retry.Continued(fn, bg, j);
    }
  }

  /** One Send as SpamMail issues it: template, recipient, data, sandbox flag. */
  datatype MailCall<D> = MailCall(template: string, name: string, email: string, data: D, sandbox: bool, sent: Sent)

  datatype Spam<D> = Spam(calls: seq<MailCall<D>>, result: Outcome)

  /** SpamMail: Send to each user in list order, keeping only the error of
      the last Send. `oracles(i)` drives the Send to the i-th user. */
  function SpamMail<D>(users: seq<User>, data: D, sandbox: bool, oracles: nat -> SendOracle): (r: Spam<D>)
    ensures |r.calls| == |users|
    ensures forall i :: 0 <= i < |users| ==>
              r.calls[i] == MailCall(AdminNotifyTemplate, users[i].name, users[i].email, data, sandbox, Send(oracles(i)))
    ensures |users| == 0 ==> r.result == Pass
    ensures |users| > 0 ==> r.result == r.calls[|users| - 1].sent.result
  {
    var calls := seq(|users|, i requires 0 <= i < |users| =>
                   MailCall(AdminNotifyTemplate, users[i].name, users[i].email, data, sandbox, Send(oracles(i))));
    Spam(calls, if |users| == 0 then Pass else calls[|users| - 1].sent.result)
  }

  /** Earlier failures are forgotten: appending one user makes the result
      that user's Send alone, whatever happened before. */
  lemma SpamMailKeepsLastError<D>(users: seq<User>, u: User, data: D, sandbox: bool, oracles: nat -> SendOracle)
    ensures SpamMail(users + [u], data, sandbox, oracles).result == Send(oracles(|users|)).result
    ensures SpamMail(users + [u], data, sandbox, oracles).calls == SpamMail(users, data, sandbox, oracles).calls
              + [MailCall(AdminNotifyTemplate, u.name, u.email, data, sandbox, Send(oracles(|users|)))]
  {
    var a := SpamMail(users + [u], data, sandbox, oracles).calls;
    var b := SpamMail(users, data, sandbox, oracles).calls
              + [MailCall(AdminNotifyTemplate, u.name, u.email, data, sandbox, Send(oracles(|users|)))];
    assert |a| == |b|;
    forall i | 0 <= i < |a| ensures a[i] == b[i] {
      if i < |users| {
        assert (users + [u])[i] == users[i];
      }
    }
  }
}
