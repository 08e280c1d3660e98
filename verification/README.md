# relief-ops backend core, modelled in Dafny

relief-ops is a disaster-reporting backend made of three Go services that
talk over Kafka. The disaster service creates a disaster. It then publishes
a "find resources" command, and deletes the disaster again if that command
cannot be sent. The resource service looks up emergency amenities near the
location on Overpass, upserts them into MongoDB and forwards the event. The
user service then mails every admin a review link. Shared code holds:

- a retry executor with exponential backoff, jitter and cancellation;
- a Kafka client whose consumer runs each handler under that executor,
  dead-letters what still fails to `<topic>-DLQ`, and commits offsets;
- a trace-header carrier;
- JWT claim handling;
- environment-variable fallbacks.

The model is functional. Every collaborator the code calls becomes a
parameter that supplies its outcome:

- the broker, the database driver, the HTTP and mail transports;
- the JSON codec, the password hasher and the token signer;
- the random source, the clock and the context. Every `time.Now()` call
  is a clock reading of its own, so two readings in one function may differ.

Every step returns its Go result together with the trace of calls or
effects it made, in order. Go's `error` is `Errors.Outcome` (`Pass` for
nil), and `(T, error)` is `Errors.Result<T>`. Durations are natural
numbers of nanoseconds, and the backoff factor is a natural number.
Coordinates are an abstract type `Domain.Float`, because they are only
ever copied.

Modules, one per source area:

| module | file | models |
|---|---|---|
| `Errors` | errors.dfy | error values, outcomes, bytes, durations |
| `Retry` | retry.dfy | shared/tools/retry.go |
| `Traces` | traces.dfy | shared/observe/traces/apache-kafka.go |
| `Messaging` | messaging.dfy | shared/messaging/apache-kafka.go |
| `Domain` | domain.dfy | shared/events/events.go and the stored record types |
| `Env` | env.dfy | shared/env/env.go |
| `Mail` | mail.dfy | services/user-service/mail |
| `DisasterRepo` | disaster_repo.dfy | both disaster repositories |
| `UserRepo` | user_repo.dfy | both user repositories |
| `ResourceRepo` | resource_repo.dfy | services/resource-service/repo/mongodb.go |
| `Overpass` | overpass.dfy | services/resource-service/service/overpass.go |
| `Jwt` | jwt.dfy | shared/util/jwt.go |
| `UserService` | users.dfy | services/user-service/service/user.go |
| `Saga` | saga.dfy | the gRPC ReportDisaster handler and the three event consumers |

Where the code differs from how the system is usually described, the model
follows the code:

- A failed dead-letter publish skips the commit. The message stays
  uncommitted.
- `SpamMail` sends one mail at a time, in list order. It returns only the
  last send's error.
- The "unknown event type" errors of the consumers are plain errors. The
  retry executor therefore retries them five times before dead-lettering.
- The event payload that ReportDisaster publishes leaves ContributorID
  empty. The payload has no search radius.
- Jitter is `byte mod (delay/2)`, so it adds at most 255ns. A jittered
  sleep is therefore about three quarters of the base delay, not ±25%.

## Model

| member | source | states |
|---|---|---|
| Retry.NewRetryableError | shared/tools/retry.go:22-28 | the error wraps its cause, carries the given flag and is never permanent |
| Retry.NewPermanentError | shared/tools/retry.go:31-37 | the error wraps its cause and is marked permanent |
| Retry.ClassificationRules | shared/tools/retry.go:40-45 | a permanent error is never retryable; a classified error is retryable iff its flag is set; any unclassified error, including a wrapped permanent one, is retryable |
| Retry.DefaultRetryConfig | shared/tools/retry.go:57-65 | the defaults are 3 attempts, 100ms initial delay, 30s cap, factor 2, jitter on |
| Retry.Effective | shared/tools/retry.go:85-87 | a nil config means the defaults; a given config is used as is |
| Retry.AddJitter | shared/tools/retry.go:68-81 | the result is `d - d/4 + n` with `n <= 255` and `n < d/2`; `n` is 0 when `d/2` is 0 or the random read failed; the result lies within d ± d/4 |
| Retry.SleepFor | shared/tools/retry.go:115-123 | every realised sleep is at most maxDelay |
| Retry.SleepForBounds | shared/tools/retry.go:115-123 | without jitter the sleep is the delay capped at maxDelay; with jitter it is the cap or within 255ns above three quarters of the delay |
| Retry.GrownIsPower | shared/tools/retry.go:132 | multiplying by the factor once per iteration gives initialDelay·factor^i |
| Retry.Loop | shared/tools/retry.go:92-133 | from attempt `a`, fn runs at most maxAttempts-a+1 times; there are at most as many sleeps as calls, and at most maxAttempts-a, each capped |
| Retry.LoopPrefix | shared/tools/retry.go:92-129 | the calls are consecutive attempts, each one but the last failing retryably under a live context; sleeps number calls-1, or calls after a cancellation found before an attempt |
| Retry.LoopResult | shared/tools/retry.go:93-135 | the result is explained by the last attempt: nil after success; a non-retryable error naming that attempt; exhaustion at maxAttempts wrapping the last error; or cancellation before an attempt or during a sleep |
| Retry.LoopSleeps | shared/tools/retry.go:115-132 | the i-th sleep of a run is the jittered, capped delay grown i times, with the random byte drawn after that attempt |
| Retry.RetryWithBackoff | shared/tools/retry.go:84-136 | fn runs at most maxAttempts times; there are at most maxAttempts-1 sleeps, at most as many as calls, each capped; a non-positive limit runs nothing and reports exhaustion |
| Retry.RunStopsAtFirstStop | shared/tools/retry.go:92-135 | when attempt k is the first that does not continue, the run makes exactly k calls (k-1 if cancelled before it) and k-1 sleeps, and its error follows from how attempt k ended |
| Retry.SleepSchedule | shared/tools/retry.go:90-132 | the (k+1)-th sleep is the jittered, capped initialDelay·factor^k; the cap applies to the sleep, not to the growing base |
| Traces.FirstIndex | shared/observe/traces/apache-kafka.go:15-22 | the position of the first header with the key, or the length when none has it |
| Traces.Get | shared/observe/traces/apache-kafka.go:15-22 | the value of the first header with the key, or "" when none has it |
| Traces.Set | shared/observe/traces/apache-kafka.go:24-32 | on a present key only the first match changes, keeping length and order; on an absent key exactly one header is appended |
| Traces.GetAfterSet | shared/observe/traces/apache-kafka.go:15-32 | after Set(k, v), Get(k) is v and every other key reads as before |
| Traces.SetTwice | shared/observe/traces/apache-kafka.go:24-32 | setting one key twice equals setting it once to the second value |
| Traces.Keys | shared/observe/traces/apache-kafka.go:34-40 | one key per header, in header order |
| Traces.Inject | shared/observe/traces/apache-kafka.go:61-63 | injection keeps every existing header's key in its place and adds at most one header per written field |
| Traces.TracedProduce | shared/observe/traces/apache-kafka.go:43-74 | nil headers become an empty list before injection; topic, partition, key and value are untouched; the producer's error comes back unchanged |
| Traces.TracedConsumeHandler | shared/observe/traces/apache-kafka.go:76-106 | the handler sees the message's topic, key and value, and its result is returned unchanged |
| Messaging.NewKafkaClient | shared/messaging/apache-kafka.go:26-60 | success iff both clients are created; a consumer failure closes the producer and returns that error; auto-commit is off |
| Messaging.Produce | shared/messaging/apache-kafka.go:63-95 | exactly the given topic, key and value go to any partition; an enqueue error is returned at once; nil iff a report without error arrives; otherwise the report's error, ErrUnknown, or the context's error |
| Messaging.DlqTopic | shared/messaging/apache-kafka.go:166 | the DLQ topic is the topic followed by "-DLQ" |
| Messaging.DlqTopicInjective | shared/messaging/apache-kafka.go:166 | distinct topics have distinct dead-letter topics |
| Messaging.DLQ | shared/messaging/apache-kafka.go:165-171 | the unchanged key and value are produced to the DLQ topic |
| Messaging.ConsumerRetry | shared/messaging/apache-kafka.go:130-136 | handlers run under 5 attempts, 100ms initial delay, 5s cap, factor 2, jitter |
| Messaging.Step | shared/messaging/apache-kafka.go:121-160 | only a received message runs the handler; after success it is committed; after failure it is dead-lettered and committed iff the DLQ publish succeeded; nil polls, broker errors and other events do nothing |
| Messaging.Consume | shared/messaging/apache-kafka.go:101-162 | a subscription error is returned before any poll; otherwise the loop ends with nil |
| Messaging.DrainAppend | shared/messaging/apache-kafka.go:114-161 | the poll loop handles each event independently: the effects of a concatenation are the concatenated effects |
| Messaging.StepCommits | shared/messaging/apache-kafka.go:138-154 | one poll commits its message exactly when the handler or the DLQ publish succeeded |
| Messaging.CommitsFollowRule | shared/messaging/apache-kafka.go:114-161 | the committed messages are exactly the received ones whose handler succeeded or whose DLQ publish succeeded, each once, in poll order |
| Messaging.AlwaysFailingHandlerIsDeadLettered | shared/messaging/apache-kafka.go:138-154 | a handler failing retryably on every attempt runs five times, and the message goes to `<topic>-DLQ` with its key and value |
| Messaging.AlwaysFailingHandlerCommitsAfterDlq | shared/messaging/apache-kafka.go:138-154 | such a message is committed once iff its dead-letter publish succeeds, and not at all when that publish fails |
| Messaging.AlwaysFailingRunsFiveTimes | shared/messaging/apache-kafka.go:130-141 | such a handler's retried run makes exactly five calls and fails |
| Messaging.PermanentFailureIsNotRetried | shared/messaging/apache-kafka.go:138-144 | a permanent error on the first attempt runs the handler once, then dead-letters the message |
| Env.GetString | shared/env/env.go:11-17 | the default iff the variable is empty or unset, otherwise its value |
| Env.DigitsRoundTrip | shared/env/env.go:27 | decimal digits read back to the number they print |
| Env.ParseInt | shared/env/env.go:27 | parses iff the string, without an optional leading sign, is a non-empty run of decimal digits whose signed value lies in the int64 range; the parsed value is that signed value |
| Env.ParseFormatInt | shared/env/env.go:27 | every int64 survives printing and parsing |
| Env.GetInt | shared/env/env.go:21-32 | the default when empty, unset or not a base-10 int64, otherwise the parsed value, which stays in int64 range |
| Env.GetIntReadsFormatted | shared/env/env.go:21-32 | a variable set to a printed int64 reads back as that number |
| Env.ParseBool | shared/env/env.go:42 | true iff one of 1 t T TRUE true True; false iff one of 0 f F FALSE false False |
| Env.GetBool | shared/env/env.go:36-47 | the default when unparsable (including empty), otherwise the parsed value |
| Env.GetBoolReadsFormatted | shared/env/env.go:36-47 | a variable set to a printed boolean reads back as that boolean |
| Env.GetTimeDuration | shared/env/env.go:51-62 | the default when empty, unset or unparsable, otherwise the parsed duration |
| Env.UnsetIsEmpty | shared/env/env.go:12-15 | all four getters treat an unset variable and an empty one alike |
| Mail.MailRetry | services/user-service/mail/sendgrid.go:61-67 | sends retry 3 times (MaxRetries), from 2s, factor 2, capped at 30s, with jitter |
| Mail.SendAttempt | services/user-service/mail/sendgrid.go:69-78 | an attempt succeeds iff the transport answered with 200 ≤ status < 300; a transport error is returned as is; otherwise the error carries status and body |
| Mail.Send | services/user-service/mail/sendgrid.go:33-80 | the status is -1 on every path; a template failure returns its error with no send; at most three attempts |
| Mail.SendRetriesUntilAccepted | services/user-service/mail/sendgrid.go:69-79 | under a context that cannot be cancelled, a send makes 1 to 3 attempts, all but the last rejected, and returns nil iff the last was accepted |
| Mail.SpamMail | services/user-service/mail/sendgrid.go:83-89 | one send per user, in list order, with the admin template and the same data; nil for no users, otherwise the last send's error |
| Mail.SpamMailKeepsLastError | services/user-service/mail/sendgrid.go:84-88 | appending a user keeps the earlier sends and replaces the result by the new send's error |
| DisasterRepo.MemCreate | services/disaster-service/repo/disaster.go:26-32 | the record is stored under its id as "pending", replacing any previous one; the id is returned; nothing else changes |
| DisasterRepo.MemDelete | services/disaster-service/repo/disaster.go:34-39 | the key is absent afterwards and every other entry is unchanged |
| DisasterRepo.MemDeleteLaws | services/disaster-service/repo/disaster.go:26-39 | deleting is idempotent; deleting a freshly created new id restores the store |
| DisasterRepo.MongoCreate | services/disaster-service/repo/mongodb.go:54-69 | status "pending" and the two timestamps from their own clock readings, whatever the input; a driver error or taken id stores nothing; otherwise only the new key is added |
| DisasterRepo.MongoDelete | services/disaster-service/repo/mongodb.go:72-87 | a missing id gives ErrNotFound; a present one is removed and nothing else changes |
| DisasterRepo.MongoGetByID | services/disaster-service/repo/mongodb.go:89-103 | the stored record, or the driver's no-documents error, never ErrNotFound of the repository |
| DisasterRepo.MongoUpdateStatus | services/disaster-service/repo/mongodb.go:106-128 | only status and updated_at of that record change, with no transition check; a missing id gives ErrNotFound |
| DisasterRepo.MongoGetAll | services/disaster-service/repo/mongodb.go:131-160 | exactly the records with the given status, or all records for "" |
| DisasterRepo.GetAllPartitions | services/disaster-service/repo/mongodb.go:135-138 | listing with "" returns the whole store; a record is listed under a status iff it has that status |
| DisasterRepo.UpdateThenList | services/disaster-service/repo/mongodb.go:106-160 | after setting a status, the record is listed under that status |
| DisasterRepo.CreateAsWritten | services/disaster-service/repo/mongodb.go:54-69 | the record is inserted under an ObjectID `_id` (its own or a generated one) and the hex string of that ObjectID is returned; a taken id or driver error stores nothing |
| DisasterRepo.DeleteAsWritten | services/disaster-service/repo/mongodb.go:72-87 | the filter holds the id as a string, so only a string `_id` is deleted; over a collection of ObjectIDs it always reports ErrNotFound |
| DisasterRepo.GetByIDAsWritten | services/disaster-service/repo/mongodb.go:89-103 | the same string filter; over a collection of ObjectIDs it always reports no documents |
| DisasterRepo.UpdateStatusAsWritten | services/disaster-service/repo/mongodb.go:106-128 | the same string filter; over a collection of ObjectIDs it always reports ErrNotFound and changes nothing |
| DisasterRepo.CreatedIdIsNeverFound | services/disaster-service/repo/mongodb.go:54-128 | the id Create returns finds nothing: deleting, reading or updating by it reports the record missing, and the record stays stored |
| DisasterRepo.CreateThenDeleteRestores | services/disaster-service/repo/mongodb.go:54-87 | with a filter matching the stored `_id`, deleting by the id Create returned removes exactly that record and restores the store |
| UserRepo.MemCreate | services/user-service/repo/user.go:42-48 | the user is stored under its id, replacing any previous one, without an email check |
| UserRepo.MemGetByID | services/user-service/repo/user.go:51-59 | some user iff the id is stored; nil without an error otherwise |
| UserRepo.MemGetByEmail | services/user-service/repo/user.go:63-73 | some stored user with that email, or nil iff none has it |
| UserRepo.MemGetByRole | services/user-service/repo/user.go:76-87 | exactly the stored users with the role, one per stored key |
| UserRepo.MongoCreate | services/user-service/repo/mongodb.go:52-68 | a duplicate key, including an email already stored, gives ErrResourceConflict and stores nothing; other driver errors pass through unchanged |
| UserRepo.MongoCreateKeepsEmailsUnique | services/user-service/repo/mongodb.go:39-44 | no two stored users share an email, before and after a create |
| UserRepo.MongoGetByID | services/user-service/repo/mongodb.go:71-85 | the stored user, or the driver's error unchanged |
| UserRepo.MongoGetByEmail | services/user-service/repo/mongodb.go:88-103 | the user with that email; no match gives ErrNoResourcesFound; other driver errors pass through |
| UserRepo.MongoGetAllByRole | services/user-service/repo/mongodb.go:106-129 | exactly the stored users with the role, or the driver's error |
| ResourceRepo.BuildOps | services/resource-service/repo/mongodb.go:63-90 | one upsert per resource, in input order, filtered on (name, amenity_type), all stamped with one shared now |
| ResourceRepo.Apply | services/resource-service/repo/mongodb.go:72-87 | an upsert touches only its key, inserting it when missing |
| ResourceRepo.AddResources | services/resource-service/repo/mongodb.go:55-103 | an empty list is nil with no write; a clean write applies every upsert; a duplicate-key error is swallowed and leaves the upserts that did not fail applied; other errors are wrapped and change nothing |
| ResourceRepo.Surviving | services/resource-service/repo/mongodb.go:92-98 | the upserts the unordered write applied are listed ones, never more than listed, and all of them when no position failed |
| ResourceRepo.SurvivingPositions | services/resource-service/repo/mongodb.go:92-98 | the applied upserts are as many as the unskipped positions, and every unskipped resource is among them |
| ResourceRepo.SurvivingAt | services/resource-service/repo/mongodb.go:92-98 | the resource at an unskipped position is applied at the slot that counts the unskipped positions before it, so the applied upserts are the unskipped ones in list order |
| ResourceRepo.KeptMonotone | services/resource-service/repo/mongodb.go:92-98 | those slots grow strictly from one unskipped position to the next, so no two unskipped resources share one |
| ResourceRepo.ApplyAllIsUpserted | services/resource-service/repo/mongodb.go:66-93 | the bulk write leaves each listed key with its last location and now as update time, keeps created_at of existing records, and leaves all others alone |
| ResourceRepo.AddTwiceIsAddOnce | services/resource-service/repo/mongodb.go:66-90 | adding a list twice leaves the same keys, locations and creation times as once; only updated_at moves |
| ResourceRepo.AddStoresEveryKey | services/resource-service/repo/mongodb.go:66-102 | after a successful call every written key is stored with its last written location and now; after a clean write that is every listed key, after a swallowed duplicate-key error only listed keys; nothing else changes |
| Overpass.ToResource | services/resource-service/service/overpass.go:90-113 | nodes use their own lat/lon, others their center; the location is a Point [lon, lat]; name and amenity come from the tags |
| Overpass.Convert | services/resource-service/service/overpass.go:88-117 | the loop computes the reference conversion: located elements in order, stopping at the first with nil tags |
| Overpass.PanicsAtFirstNilTags | services/resource-service/service/overpass.go:101-107 | conversion succeeds iff no located element lacks tags; otherwise it stops at the first such element |
| Overpass.ConvertConcat | services/resource-service/service/overpass.go:89-115 | converting a concatenation converts each part, keeping order |
| Overpass.ConvertOne | services/resource-service/service/overpass.go:89-115 | one element yields one resource when located, none otherwise |
| Overpass.ConvertBound | services/resource-service/service/overpass.go:89-115 | never more resources than elements |
| Overpass.FindResources | services/resource-service/service/overpass.go:72-117 | a transport error, non-200 status or decode error is returned with no resources; otherwise the converted elements |
| Overpass.SaveRetry | services/resource-service/service/overpass.go:121-127 | 3 attempts, 100ms initial delay, 5s cap, factor 2, jitter |
| Overpass.SaveResources | services/resource-service/service/overpass.go:120-138 | the lookup and the write are retried together, at most three times |
| Overpass.FailedAttemptWritesNothing | services/resource-service/service/overpass.go:129-136 | an attempt whose lookup or write fails leaves the store unchanged |
| Overpass.SaveWritesOnlyOnSuccess | services/resource-service/service/overpass.go:120-138 | the store changes only by the one successful attempt's write, if any |
| Jwt.NumericDate | shared/util/jwt.go:42-44 | times are truncated to whole seconds, never rounded up |
| Jwt.NewClaims | shared/util/jwt.go:34-46 | user fields copied; issuer, audience and subject are the fixed values; issued-at, not-before and expiry (reading + lifetime) each come from their own clock reading, at second precision |
| Jwt.ValidateClaims | shared/util/jwt.go:77-95 | panics (None) iff the claims carry no expiry; otherwise passes iff not expired (expiry not before now), right issuer, audience containing "relief-ops-users" and right subject, else the first failing check's error |
| Jwt.FreshClaimsValidUntilExpiry | shared/util/jwt.go:33-95 | generated claims pass validateClaims at t iff t ≤ (expiry reading + lifetime) truncated to seconds, so at least until one second before it |
| Jwt.ParseToken | shared/util/jwt.go:53-74 | malformed tokens, non-HMAC methods and bad signatures are rejected first, then the library's expiry and not-before check at its own reading, then validateClaims at a second reading; a signed token without expiry panics; the claims are returned iff all pass |
| Jwt.LibraryValidate | shared/util/jwt.go:54-62 | the library's own check passes iff a present expiry lies strictly after the reading and a present not-before does not lie after it; a failure is its invalid-claims error |
| Jwt.GeneratedTokenParses | shared/util/jwt.go:33-74 | a correctly signed token of generated claims parses back to them iff the library's reading lies in [not-before, expiry) and validateClaims' reading is not after the expiry |
| Jwt.GeneratedTokenRoundTrip | shared/util/jwt.go:33-74 | a token GenerateToken signed, decoded by an inverse of the signer, never panics and parses back iff the readings lie in its window, to claims carrying the user's id, email and role and the fixed issuer, audience and subject; otherwise the error is the library's or "token has expired" |
| Jwt.ExpiredOnlyAcrossReadings | shared/util/jwt.go:69-80 | validateClaims' "token has expired" is returned only when the clock passed the expiry between the library's reading and its own; with one reading it never is |
| UserService.CreateUser | services/user-service/service/user.go:41-50 | a hash failure returns its error and stores nothing; otherwise the repository create runs with the hashed password |
| UserService.CreateUserStoresHash | services/user-service/service/user.go:43-49 | a stored user never holds the plain password |
| UserService.GetAdmins | services/user-service/service/user.go:53-55 | exactly the stored users with role "admin", or the driver's error |
| UserService.LoginAsWritten | services/user-service/service/user.go:58-80 | the lookup error is returned unchanged; a wrong password returns neither user nor error |
| UserService.WrongPasswordGivesNoError | services/user-service/service/user.go:64-66 | the wrong-password result breaks the error-iff-no-user contract |
| UserService.Login | services/user-service/service/user.go:58-80 | lookup errors pass through; a wrong password is ErrInvalidCredentials; a user comes back only with a token signed over its id, email and role |
| UserService.LoginWellFormed | services/user-service/service/user.go:58-80 | the corrected login always returns a user or an error, and agrees with the code everywhere but the wrong-password path |
| Saga.ReportDisaster | services/disaster-service/handler/grpc.go:31-79 | the disaster gets the fresh UUID; a create failure returns at once; the payload carries the created id and location; an encoding failure is wrapped; once encoded, the event is published and the publish decides between a wrapped failure and {id, "pending"} |
| Saga.ExactlyOneCompensation | services/disaster-service/handler/grpc.go:57-73 | exactly one delete of the created id when a report fails after creation, none otherwise |
| Saga.ReportPublishesOneEvent | services/disaster-service/handler/grpc.go:52-78 | exactly one message once the disaster is created and its payload encoded, none otherwise: to "resource.cmd.find", keyed by the id, carrying the encoded payload; the report succeeds iff it was delivered |
| Saga.DeleteFailureIsOnlyLogged | services/disaster-service/handler/grpc.go:60-72 | a failing compensating delete does not change the result |
| Saga.ReportLeavesNoOrphan | services/disaster-service/handler/grpc.go:45-78 | against the in-memory store, the disaster is stored, as pending, iff the report succeeds |
| Saga.HandleFindResources | services/resource-service/event/disaster_consumer.go:41-58 | nil iff decode, save and publish all succeed; each failure is wrapped and stops the handling; after a save the same bytes are forwarded to "user.notify.admin_review", keyed by the disaster id, and a failed forward is wrapped |
| Saga.ReportedEventIsForwarded | services/resource-service/event/disaster_consumer.go:41-58 | the bytes a report publishes, once decoded and saved by the resource service, are forwarded unchanged under the same key, and the handling succeeds iff that forward is delivered |
| Saga.ResourceConsumer | services/resource-service/event/disaster_consumer.go:25-38 | "resource.cmd.find" is handled; any other topic is an unknown-event error |
| Saga.UnknownTopicIsRetriedThenDeadLettered | services/resource-service/event/disaster_consumer.go:33-35 | the unknown-event error is retryable, so such a message runs five times and is dead-lettered |
| Saga.ReviewData | services/user-service/event/disaster_consumer.go:55-64 | the review data copies the ids; the URL is WEB_URL (default http://localhost:3000) + "/admin/review/" + id |
| Saga.HandleAdminNotify | services/user-service/event/disaster_consumer.go:40-67 | an admin lookup error is returned; no admins means nil with no decode and no mail; otherwise a decode error, or one SpamMail to all admins with sandbox off |
| Saga.UserConsumer | services/user-service/event/disaster_consumer.go:27-37 | "user.notify.admin_review" is handled; any other topic is accepted silently |
| Saga.EveryAdminIsMailed | services/user-service/event/disaster_consumer.go:66 | one mail per admin, in list order, with the admin-review template and sandbox off, whose review URL ends with the disaster id; the handler returns SpamMail's result |
| Saga.DeleteConsumer | services/disaster-service/event/resource_consumer.go:23-36 | "disaster.cmd.delete" deletes the key and returns the delete's result; any other topic is an unknown-event error |
| Saga.DeleteCommandRemovesDisaster | services/disaster-service/event/resource_consumer.go:23-36 | against the Mongo store, a delete command leaves the key unstored unless the driver failed, returns nil iff the key was stored and the driver did not fail, and removes only that record |

## Left out

- I/O and foreign calls are oracle parameters. They are not interpreted:
  - the Kafka client, the MongoDB driver, the Overpass HTTP call and its query text;
  - SendGrid and its templates;
  - JSON encoding, bcrypt and HMAC signing;
  - `uuid.New`, `time.Now` and `crypto/rand`.
- Concurrency is left out: the consumer's closer goroutine, the repositories' mutexes and the server bootstrap files. Every operation is one sequential step.
- Observability is left out: spans, attributes and the propagator's encoding. The propagator's writes are given as a list of header fields.
- Floating point is left out. The backoff factor is a natural number, and `float64(delay) * factor` is exact multiplication on unbounded integers. Coordinates are abstract and only copied.
- Retry.GrownIsPower: does not model the int64 range of `time.Duration`. The base delay grows without a cap on every iteration, and in Go it leaves the int64 range after about 37 doublings of 100ms; the float-to-Duration conversion is then implementation-dependent. The model keeps the exact `initialDelay·factor^i`. No retry configuration of the code runs more than 5 attempts.
- Retry.SleepSchedule: states `SleepFor(initialDelay·factor^k)` for every k on unbounded integers, so after an int64 overflow of the growing base it keeps sleeping `maxDelay` where Go would compute a wrapped, possibly negative, sleep. That overflow is not modelled, for the reason given for Retry.GrownIsPower.
- Timeouts are left out: the 5s query timeout and the 30s DLQ timeout. A context that expires is one of the context oracles.
- The MongoDB `_id` mismatch is modelled once, for the disaster store, under "## Findings". The record types' ids are ObjectIDs, and Create returns their hex strings. Delete, GetByID and UpdateStatus filter on the id as a BSON string, which matches no ObjectID. Every other Mongo operation of the model uses a store keyed by the hex string, which is the corrected matching.
- DisasterRepo.MongoDelete: promises that a stored id is deleted. The code as written never matches a stored ObjectID (`DisasterRepo.DeleteAsWritten`, `DisasterRepo.CreatedIdIsNeverFound`).
- DisasterRepo.MongoGetByID: promises the stored record for a stored id. The code as written reports no documents for every id (`DisasterRepo.GetByIDAsWritten`).
- DisasterRepo.MongoUpdateStatus: promises the update of a stored id. The code as written reports ErrNotFound for every id (`DisasterRepo.UpdateStatusAsWritten`).
- UserRepo.MongoGetByID: promises the stored user for a stored id. Its filter (services/user-service/repo/mongodb.go:76-78) has the same string-against-ObjectID mismatch, so as written it finds no user; the as-written form is not modelled separately.
- Saga.DeleteCommandRemovesDisaster: runs the delete command against the corrected store. As written, the Mongo store wired in services/disaster-service/main.go:105 finds no record, and the command fails with ErrNotFound.
- Saga.ReportLeavesNoOrphan: is stated against the in-memory store, whose delete matches. Against the Mongo store as written, the compensating delete reports ErrNotFound and the created record stays stored: the report fails and leaves an orphan.
- The handler oracle is indexed by the attempt number only. A message delivered again gets the same outcomes as on its first delivery; a handler whose behaviour depends on earlier deliveries is not modelled.
- ReportDisaster in services/disaster-service/handler/grpc.go:32-43 fills a shared/types.Disaster, whose id is an ObjectID and which has no contributor field (shared/types/types.go:22-33), while the service expects its own record type. That does not compile. The model follows the service's record type (`Domain.Disaster`), with a string id and a contributor.
- An unordered bulk write that fails part-way with anything but a duplicate key is left out: it is modelled as writing nothing. A swallowed duplicate-key failure is modelled as the driver reports it, with every upsert applied except those at the failing positions, which are a parameter. Applied upserts take effect in list order; that order is only visible when keys repeat.
- Map iteration order is a choice the model leaves open:
  - `UserRepo.MemGetByEmail` picks some matching user;
  - the role queries return the matching users in some order.
- The geospatial `GetNearbyResources` query is not part of this model.
- The consumers pass three-argument closures where the handler type expects a context first. The model gives each handler the topic, key and value.
- The resource consumer reads a search radius that the payload type does not have. `Saga.SaveResources` records only the location.
- The "invalid token claims" branch of ParseToken is not modelled. A token the JWT library (golang-jwt v5) returns without error is always valid and carries claims of the right type.
- The JWT library is not part of this model. `Jwt.LibraryValidate` follows its default validation (expiry and not-before, no leeway, issued-at unchecked); its error texts are given as the library formats them.
- A correctly signed token without an expiry claim makes validateClaims dereference a nil pointer. `Jwt.ParseToken` returns that as the outcome `NilExpiryPanic` instead of modelling the crash.
- The Overpass element loop panics on a located element with nil tags. `Overpass.Convert` returns that as the outcome `NilTags(index)` instead of modelling the crash. `Overpass.SaveResources` takes lookups that have already completed, so it never sees the panic.
- Jwt.FreshClaimsValidUntilExpiry: is stated up to `NumericDate(now + expiry)`, not `now + expiry`, where `now` is the expiry claim's own clock reading. The JWT library truncates every timestamp to whole seconds, so a token can expire up to one second before `now + expiry`.
- Retry.AddJitter: states the `d ± d/4` envelope the code's comment announces, and the exact form `d - d/4 + n` with `n <= 255`. It does not promise a spread across that envelope, because the code never adds more than 255ns to `d - d/4`.
- Retry.Loop: time is not modelled. A sleep is recorded as its duration; a sleep interrupted by cancellation is not recorded.

## Findings

| source | as written | input that shows it | evidently intended | confidence | as-written member | corrected member |
|---|---|---|---|---|---|---|
| services/user-service/service/user.go:64-66 | after a wrong password, Login returns `nil, "", err`, where `err` is the nil left by the successful lookup | a stored user and a password that does not match its hash: the result is no user, no token and no error | a wrong password returns an error, so a caller gets either a user or an error | high (not executed) | UserService.WrongPasswordGivesNoError | UserService.LoginWellFormed |
| services/disaster-service/repo/mongodb.go:72-87 | Delete filters `{"_id": disasterID}` with the id as a string, while Create (lines 54-69) inserts under an ObjectID `_id` and returns its hex string; GetByID (89-103) and UpdateStatus (106-128) use the same filter | create a disaster, then delete it by the returned id: the result is ErrNotFound and the record stays; so the saga's compensating delete never removes anything | the filter converts the hex string back to an ObjectID, so the id Create returns finds its record | high (not executed) | DisasterRepo.CreatedIdIsNeverFound | DisasterRepo.CreateThenDeleteRestores |
