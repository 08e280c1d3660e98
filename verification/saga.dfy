/** The disaster-report saga. The disaster service creates a disaster and
    asks the resource service to find resources around it, deleting the
    disaster again if the request cannot be sent; the resource service
    saves what it finds and asks the user service to notify the admins;
    the user service mails every admin. The disaster service also deletes
    a disaster on command.

    Each step is a function of its collaborators' outcomes that returns its
    result and the calls it made, in order. JSON encoding and decoding are
    parameters. */
module Saga {
  import opened Errors
  import opened Domain
  import opened Traces
  import Messaging
  import Retry
  import Mail
  import Env
  import DisasterRepo

  /** The template data of the admin notification. */
  datatype AdminData = AdminData(disasterID: string, contributorID: string, reviewURL: string)

  /** A call a saga step makes, with what came back where the step reads it. */
  datatype Call =
    | CreateDisaster(disaster: Disaster)
    | Marshal(payload: DisasterEventCreatedPayload)
    | Publish(sent: Traced)
    | DeleteDisaster(id: string, outcome: Outcome)
    | Unmarshal(value: seq<byte>)
    | SaveResources(location: Coordinates, outcome: Outcome)
    | GetAdmins
    | SpamMail(recipients: seq<User>, data: AdminData, sandbox: bool, outcome: Outcome)

  /** The ids a trace deletes, in order. */
  function DeletedIDs(calls: seq<Call>): seq<string> {
    if |calls| == 0 then []
    else (if calls[0].DeleteDisaster? then [calls[0].id] else []) + DeletedIDs(calls[1..])
  }

  /** The publishes of a trace, in order: the message and its result. */
  function Published(calls: seq<Call>): seq<Traced> {
    if |calls| == 0 then []
    else (if calls[0].Publish? then [calls[0].sent] else []) + Published(calls[1..])
  }

  /** The error of a handler for a topic it does not know. */
  function UnknownEventType(topic: string): Error {
    Plain("unknown event type: " + topic)
  }

  // ----- disaster service: ReportDisaster -----

  datatype ReportRequest = ReportRequest(
    title: string, description: string, tags: seq<string>, location: Coordinates,
    contributorID: string, imageURLs: seq<string>)

  datatype ReportResponse = ReportResponse(id: string, status: string)

  /** The collaborators of one report: the generated UUID, CreateDisaster's
      result, the JSON encoder, the broker and DeleteDisaster's result. */
  datatype ReportOracle = ReportOracle(
    uuid: string,
    create: Result<string>,
    marshal: DisasterEventCreatedPayload -> Result<seq<byte>>,
    publish: Messaging.ProduceOracle,
    delete: Outcome)

  datatype Reported = Reported(result: Result<ReportResponse>, calls: seq<Call>)

  /** The disaster built from a request, under a fresh UUID. */
  function NewDisaster(req: ReportRequest, uuid: string): Disaster {
    Disaster(uuid, req.title, req.description, req.tags, req.contributorID, 0, 0,
             req.imageURLs, req.location, "")
  }

  /** ReportDisaster: create, encode the event, publish it to
      "resource.cmd.find" keyed by the disaster id; if encoding or
      publishing fails, delete the disaster again and return that failure
      (a failed delete is only logged). */
  function ReportDisaster(req: ReportRequest, o: ReportOracle): (r: Reported)
    ensures |r.calls| >= 1 && r.calls[0] == CreateDisaster(NewDisaster(req, o.uuid))
    ensures o.create.Failure? ==> r == Reported(Failure(o.create.error), [CreateDisaster(NewDisaster(req, o.uuid))])
    ensures o.create.Success? ==>
              |r.calls| >= 2 && r.calls[1] == Marshal(DisasterEventCreatedPayload(o.create.value, req.location, ""))
    ensures r.result.Success? ==> r.result.value == ReportResponse(o.create.value, StatusPending)
    ensures o.create.Success? && o.marshal(r.calls[1].payload).Failure? ==>
              r.result == Failure(Wrapped("failed to marshal disaster event payload", o.marshal(r.calls[1].payload).error))
    // once encoded, the event is published, and the publish decides the result
    ensures o.create.Success? && o.marshal(r.calls[1].payload).Success? ==>
              var t := Messaging.Produce(ResourceCommandFind, o.create.value, o.marshal(r.calls[1].payload).value, o.publish);
              && |r.calls| >= 3 && r.calls[2] == Publish(t)
              && r.result == if t.result.Fail? then Failure(Wrapped("failed to produce disaster event message", t.result.error))
                             else Success(ReportResponse(o.create.value, StatusPending))
  {
    var d := NewDisaster(req, o.uuid);
    var created := [CreateDisaster(d)];
    match o.create
    case Failure(e) => Reported(Failure(e), created)
    case Success(id) =>
      var payload := DisasterEventCreatedPayload(id, d.location, "");
      var marshalled := created + [Marshal(payload)];
      match o.marshal(payload)
      case Failure(e) =>
        Reported(Failure(Wrapped("failed to marshal disaster event payload", e)),
                 marshalled + [DeleteDisaster(id, o.delete)])
      case Success(value) =>
        var t := Messaging.Produce(ResourceCommandFind, id, value, o.publish);
        var published := marshalled + [Publish(t)];
        if t.result.Fail? then
          Reported(Failure(Wrapped("failed to produce disaster event message", t.result.error)),
                   published + [DeleteDisaster(id, o.delete)])
        else Reported(Success(ReportResponse(id, StatusPending)), published)
  }

  /** Compensation: exactly one delete, of the created id, when a report
      fails after its disaster was created; none otherwise. */
  lemma ExactlyOneCompensation(req: ReportRequest, o: ReportOracle)
    ensures var r := ReportDisaster(req, o);
            DeletedIDs(r.calls) == if o.create.Success? && r.result.Failure? then [o.create.value] else []
  {
    var r := ReportDisaster(req, o);
    var c := r.calls;
    assert DeletedIDs(c) == DeletedIDs(c[1..]);
    if |c| >= 2 {
      assert DeletedIDs(c[1..]) == DeletedIDs(c[2..]);
    }
    if |c| >= 3 {
      assert DeletedIDs(c[2..]) == (if c[2].DeleteDisaster? then [c[2].id] else []) + DeletedIDs(c[3..]);
    }
    if |c| >= 4 {
      assert DeletedIDs(c[3..]) == (if c[3].DeleteDisaster? then [c[3].id] else []) + DeletedIDs(c[4..]);
    }
  }

  /** The event: exactly one message once the disaster is created and its
      payload encoded, none otherwise. It goes to "resource.cmd.find",
      keyed by the created id, carrying the encoding of (id, request
      location, empty contributor), through the broker; a report succeeds
      exactly when that message was delivered. */
  lemma ReportPublishesOneEvent(req: ReportRequest, o: ReportOracle)
    ensures var r := ReportDisaster(req, o);
            var payload := DisasterEventCreatedPayload(if o.create.Success? then o.create.value else "", req.location, "");
            && Published(r.calls) ==
                 (if o.create.Success? && o.marshal(payload).Success?
                  then [Messaging.Produce(ResourceCommandFind, o.create.value, o.marshal(payload).value, o.publish)]
                  else [])
            && (r.result.Success? <==> |Published(r.calls)| == 1 && Published(r.calls)[0].result.Pass?)
            && (|Published(r.calls)| == 1 && Published(r.calls)[0].result.Fail? ==>
                  r.result == Failure(Wrapped("failed to produce disaster event message", Published(r.calls)[0].result.error)))
  {
    var c := ReportDisaster(req, o).calls;
    assert Published(c) == Published(c[1..]);
    if |c| >= 2 {
      assert Published(c[1..]) == Published(c[2..]);
    }
    if |c| >= 3 {
      assert Published(c[2..]) == (if c[2].Publish? then [c[2].sent] else []) + Published(c[3..]);
    }
    if |c| >= 4 {
      assert Published(c[3..]) == Published(c[4..]);
    }
  }

  /** A failing compensating delete changes nothing the caller sees. */
  lemma DeleteFailureIsOnlyLogged(req: ReportRequest, o: ReportOracle, other: Outcome)
    ensures ReportDisaster(req, o).result == ReportDisaster(req, o.(delete := other)).result
  {
  }

  /** The report's calls played against the in-memory disaster store. */
  function PlayOnStore(s: DisasterRepo.MemStore, calls: seq<Call>): DisasterRepo.MemStore
    decreases |calls|
  {
    if |calls| == 0 then s
    else
      var next := match calls[0]
        case CreateDisaster(d) => DisasterRepo.MemCreate(s, d).0
        case DeleteDisaster(id, _) => DisasterRepo.MemDelete(s, id)
        case _ => s;
      PlayOnStore(next, calls[1..])
  }

  /** No orphans: against the in-memory store, which files a disaster under
      its own id, a report leaves its disaster stored, as pending, exactly
      when it succeeds. */
  lemma ReportLeavesNoOrphan(s: DisasterRepo.MemStore, req: ReportRequest, o: ReportOracle)
    requires o.create == Success(o.uuid)
    ensures var r := ReportDisaster(req, o);
            var after := PlayOnStore(s, r.calls);
            && (o.uuid in after <==> r.result.Success?)
            && (o.uuid in after ==> after[o.uuid].status == StatusPending)
  {
    var c := ReportDisaster(req, o).calls;
    var s1 := DisasterRepo.MemCreate(s, NewDisaster(req, o.uuid)).0;
    assert PlayOnStore(s, c) == PlayOnStore(s1, c[1..]);
    assert PlayOnStore(s1, c[1..]) == PlayOnStore(s1, c[2..]);
    var payload := DisasterEventCreatedPayload(o.uuid, req.location, "");
    var del := [DeleteDisaster(o.uuid, o.delete)];
    assert del[1..] == [];
    assert PlayOnStore(s1, del) == PlayOnStore(DisasterRepo.MemDelete(s1, o.uuid), del[1..]);
    if o.marshal(payload).Failure? {
      assert c[2..] == del;
    } else {
      var t := Messaging.Produce(ResourceCommandFind, o.uuid, o.marshal(payload).value, o.publish);
      if t.result.Fail? {
        assert c[2..] == [Publish(t)] + del;
        assert c[2..][1..] == del;
        assert PlayOnStore(s1, c[2..]) == PlayOnStore(s1, del);
      } else {
        assert c[2..] == [Publish(t)];
        assert c[2..][1..] == [];
        assert PlayOnStore(s1, c[2..]) == PlayOnStore(s1, []);
      }
    }
  }

  // ----- resource service: the find-resources command -----

  /** The collaborators of one handling: the JSON decoder, SaveResources'
      result and the broker. */
  datatype FindOracle = FindOracle(
    unmarshal: seq<byte> -> Result<DisasterEventCreatedPayload>,
    save: Outcome,
    publish: Messaging.ProduceOracle)

  datatype Handled = Handled(result: Outcome, calls: seq<Call>)

  /** handleFindResources: decode, save the resources around the location,
      then forward the same bytes to "user.notify.admin_review" keyed by the
      disaster id. Every failure is wrapped and stops the handling. */
  function HandleFindResources(value: seq<byte>, o: FindOracle): (h: Handled)
    ensures h.result.Pass? <==>
              o.unmarshal(value).Success? && o.save.Pass? &&
              Messaging.Produce(UserNotifyAdminReview, o.unmarshal(value).value.disasterID, value, o.publish).result.Pass?
    ensures o.unmarshal(value).Failure? ==>
              h == Handled(Fail(Wrapped("failed to unmarshal payload", o.unmarshal(value).error)), [Unmarshal(value)])
    ensures o.unmarshal(value).Success? && o.save.Fail? ==>
              h.result == Fail(Wrapped("failed to save resources", o.save.error)) && Published(h.calls) == []
    ensures |Published(h.calls)| <= 1
    ensures |Published(h.calls)| == 1 ==>
              && o.unmarshal(value).Success? && o.save.Pass?
              && Published(h.calls)[0].sent.topic == UserNotifyAdminReview
              && Published(h.calls)[0].sent.key == o.unmarshal(value).value.disasterID
              && Published(h.calls)[0].sent.value == value
    // once decoded and saved, the same bytes are forwarded through the
    // broker, and a failed publish is wrapped
    ensures o.unmarshal(value).Success? && o.save.Pass? ==>
              var t := Messaging.Produce(UserNotifyAdminReview, o.unmarshal(value).value.disasterID, value, o.publish);
              && Published(h.calls) == [t]
              && (t.result.Fail? ==> h.result == Fail(Wrapped("failed to notify user service for admin review", t.result.error)))
  {
    var decoded := [Unmarshal(value)];
    match o.unmarshal(value)
    case Failure(e) => Handled(Fail(Wrapped("failed to unmarshal payload", e)), decoded)
    case Success(payload) =>
      var saved := decoded + [SaveResources(payload.location, o.save)];
      assert Published(saved) == [] by {
        assert Published(saved) == Published(saved[1..]);
        assert Published(saved[1..]) == Published(saved[2..]);
      }
      if o.save.Fail? then Handled(Fail(Wrapped("failed to save resources", o.save.error)), saved)
      else
        var t := Messaging.Produce(UserNotifyAdminReview, payload.disasterID, value, o.publish);
        var calls := saved + [Publish(t)];
        assert Published(calls) == [t] by {
          assert Published(calls) == Published(calls[1..]);
          assert Published(calls[1..]) == Published(calls[2..]);
          assert calls[2..][1..] == [];
        }
        if t.result.Fail? then
          Handled(Fail(Wrapped("failed to notify user service for admin review", t.result.error)), calls)
        else Handled(Pass, calls)
  }

  /** The request the disaster service publishes reaches the resource
      service's handler as is: when that handler decodes the bytes back to
      the payload they encode and saves the resources, it forwards exactly
      those bytes to "user.notify.admin_review", keyed by the created
      disaster's id, and succeeds iff that forward is delivered. */
  lemma ReportedEventIsForwarded(req: ReportRequest, o: ReportOracle, f: FindOracle)
    requires o.create.Success?
    requires var payload := DisasterEventCreatedPayload(o.create.value, req.location, "");
             o.marshal(payload).Success? && f.unmarshal(o.marshal(payload).value) == Success(payload)
    requires f.save.Pass?
    ensures var sent := Published(ReportDisaster(req, o).calls);
            && |sent| == 1
            && var h := HandleFindResources(sent[0].sent.value, f);
               var forwarded := Messaging.Produce(UserNotifyAdminReview, o.create.value, sent[0].sent.value, f.publish);
               && Published(h.calls) == [forwarded]
               && forwarded.sent.value == sent[0].sent.value
               && forwarded.sent.key == sent[0].sent.key
               && (h.result.Pass? <==> forwarded.result.Pass?)
  {
    ReportPublishesOneEvent(req, o);
  }

  /** The resource service's handler: only "resource.cmd.find" is known. */
  function ResourceConsumer(d: Delivery, o: FindOracle): (h: Handled)
    ensures d.topic == ResourceCommandFind ==> h == HandleFindResources(d.value, o)
    ensures d.topic != ResourceCommandFind ==> h == Handled(Fail(UnknownEventType(d.topic)), [])
  {
    if d.topic == ResourceCommandFind then HandleFindResources(d.value, o)
    else Handled(Fail(UnknownEventType(d.topic)), [])
  }

  /** An unknown topic's error is a plain one, so the consumer retries it:
      with the context live, such a message is handled five times and then
      dead-lettered. */
  lemma UnknownTopicIsRetriedThenDeadLettered(e: Messaging.PollEvent, oracles: nat -> FindOracle)
    requires e.Received? && e.msg.topic != ResourceCommandFind
    requires forall k: nat :: 1 <= k <= 5 ==> !e.handling.doneBeforeAttempt(k) && !e.handling.doneDuringBackoff(k)
    ensures Retry.IsRetryable(UnknownEventType(e.msg.topic))
    ensures var effects := Messaging.Step(e, (d: Delivery, k: nat) => ResourceConsumer(d, oracles(k)).result);
            && effects[0] == Messaging.Handle(Messaging.DeliveryOf(e.msg), 5)
            && effects[1].DeadLetter?
            && effects[1].publish.sent.topic == Messaging.DlqTopic(e.msg.topic)
  {
    var handler: Messaging.Handler := (d: Delivery, k: nat) => ResourceConsumer(d, oracles(k)).result;
    forall k: nat | 1 <= k <= 5
      ensures handler(Messaging.DeliveryOf(e.msg), k) == Fail(UnknownEventType(e.msg.topic))
    {
      assert Messaging.DeliveryOf(e.msg).topic == e.msg.topic;
      assert ResourceConsumer(Messaging.DeliveryOf(e.msg), oracles(k)) == Handled(Fail(UnknownEventType(e.msg.topic)), []);
    }
    Messaging.AlwaysFailingHandlerIsDeadLettered(e, handler);
  }

  // ----- user service: the admin-review notification -----

  const DefaultWebURL: string := "http://localhost:3000"

  /** The collaborators of one notification: GetAdmins' result, the JSON
      decoder, the environment and the mailer. */
  datatype NotifyOracle = NotifyOracle(
    admins: Result<seq<User>>,
    unmarshal: seq<byte> -> Result<DisasterEventCreatedPayload>,
    env: Env.Environment,
    mail: nat -> Mail.SendOracle)

  /** The template data for a decoded event. */
  function ReviewData(p: DisasterEventCreatedPayload, env: Env.Environment): (a: AdminData)
    ensures a.disasterID == p.disasterID && a.contributorID == p.contributorID
    ensures a.reviewURL == Env.GetString(env, "WEB_URL", DefaultWebURL) + "/admin/review/" + p.disasterID
  {
    AdminData(p.disasterID, p.contributorID,
              Env.GetString(env, "WEB_URL", DefaultWebURL) + "/admin/review/" + p.disasterID)
  }

  /** handleAdminNotify: look up the admins (an error comes back
      unchanged); with none, stop before decoding; otherwise decode and
      mail every admin the review data, returning SpamMail's error. */
  function HandleAdminNotify(value: seq<byte>, o: NotifyOracle): (h: Handled)
    ensures |h.calls| >= 1 && h.calls[0] == GetAdmins
    ensures o.admins.Failure? ==> h == Handled(Fail(o.admins.error), [GetAdmins])
    ensures o.admins.Success? && |o.admins.value| == 0 ==> h == Handled(Pass, [GetAdmins])
    ensures o.admins.Success? && |o.admins.value| > 0 && o.unmarshal(value).Failure? ==>
              h == Handled(Fail(o.unmarshal(value).error), [GetAdmins, Unmarshal(value)])
    ensures o.admins.Success? && |o.admins.value| > 0 && o.unmarshal(value).Success? ==>
              var data := ReviewData(o.unmarshal(value).value, o.env);
              var spam := Mail.SpamMail(o.admins.value, data, false, o.mail);
              h == Handled(spam.result, [GetAdmins, Unmarshal(value), SpamMail(o.admins.value, data, false, spam.result)])
  {
    match o.admins
    case Failure(e) => Handled(Fail(e), [GetAdmins])
    case Success(users) =>
      if |users| == 0 then Handled(Pass, [GetAdmins])
      else match o.unmarshal(value)
        case Failure(e) => Handled(Fail(e), [GetAdmins, Unmarshal(value)])
        case Success(p) =>
          var data := ReviewData(p, o.env);
          var spam := Mail.SpamMail(users, data, false, o.mail);
          Handled(spam.result, [GetAdmins, Unmarshal(value), SpamMail(users, data, false, spam.result)])
  }

  /** The user service's handler: "user.notify.admin_review" is handled,
      every other topic is accepted silently. */
  function UserConsumer(d: Delivery, o: NotifyOracle): (h: Handled)
    ensures d.topic == UserNotifyAdminReview ==> h == HandleAdminNotify(d.value, o)
    ensures d.topic != UserNotifyAdminReview ==> h == Handled(Pass, [])
  {
    if d.topic == UserNotifyAdminReview then HandleAdminNotify(d.value, o) else Handled(Pass, [])
  }

  /** Every admin is mailed the review link, one Send per admin in list
      order, never in sandbox mode. */
  lemma EveryAdminIsMailed(value: seq<byte>, o: NotifyOracle)
    requires o.admins.Success? && |o.admins.value| > 0 && o.unmarshal(value).Success?
    ensures var data := ReviewData(o.unmarshal(value).value, o.env);
            var spam := Mail.SpamMail(o.admins.value, data, false, o.mail);
            && |spam.calls| == |o.admins.value|
            && (forall i :: 0 <= i < |spam.calls| ==>
                  && spam.calls[i].email == o.admins.value[i].email
                  && spam.calls[i].template == Mail.AdminNotifyTemplate
                  && !spam.calls[i].sandbox
                  && spam.calls[i].data.reviewURL[|spam.calls[i].data.reviewURL| - |data.disasterID|..] == data.disasterID)
            && HandleAdminNotify(value, o).result == spam.result
  {
  }

  // ----- disaster service: the delete command -----

  /** The disaster service's handler: "disaster.cmd.delete" deletes the
      disaster named by the message key (the value is ignored) and returns
      the delete's error; other topics are unknown. */
  function DeleteConsumer(d: Delivery, delete: Outcome): (h: Handled)
    ensures d.topic == DisasterCommandDelete ==> h.result == delete && DeletedIDs(h.calls) == [d.key]
    ensures d.topic != DisasterCommandDelete ==> h == Handled(Fail(UnknownEventType(d.topic)), [])
  {
    if d.topic == DisasterCommandDelete then
      var calls := [DeleteDisaster(d.key, delete)];
      assert DeletedIDs(calls) == [d.key] + DeletedIDs(calls[1..]);
      Handled(delete, calls)
    else Handled(Fail(UnknownEventType(d.topic)), [])
  }

  /** A delete command played against the Mongo store: afterwards the
      disaster named by the key is not stored, the handler returns nil
      exactly when it was stored and the driver did not fail, and only
      that record is removed. */
  lemma DeleteCommandRemovesDisaster(s: DisasterRepo.MongoStore, d: Delivery, fault: Option<Error>)
    requires d.topic == DisasterCommandDelete
    ensures var r := DisasterRepo.MongoDelete(s, d.key, fault);
            var h := DeleteConsumer(d, r.1);
            && (h.result.Pass? <==> fault.None? && d.key in s)
            && (h.result.Pass? ==> r.0 == s - {d.key} && DeletedIDs(h.calls) == [d.key])
            && (h.result.Fail? ==> r.0 == s)
            && (fault.None? ==> d.key !in r.0)
  {
  }
}
