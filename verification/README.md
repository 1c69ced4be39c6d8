# Proofs about the multi-tenant API platform

This project models the parts of the platform where several requests, several services or several
encodings have to agree, and proves what they guarantee.

- **Stripe webhooks and payment intents** (`PaymentTables`, `PaymentFlow`, `PaymentSystem`, `PaymentSafety`,
  `PaymentSources`, `PaymentSerial`, `PaymentOrder`, `PaymentRedelivery`, `PaymentServices`, `PaymentRoutes`). Any
  number of webhook deliveries and payment-intent requests run at once over the `payments` and
  `stripe_webhook_events` tables. One step of a worker goes from one `await` to the next; a commit is one
  atomic step guarded by the constraints of `scripts/db-init.sql`. A run is any sequence of steps, so every interleaving and every redelivery is one.
  The main theorem is strict serializability; the class `PaymentService` is proved to do, alone, what the
  steps do.
- **Signed messages** (`Letters`, `Json`, `Decimals`, `JsonText`, `CanonicalText`, `Utf8`, `Base64`,
  `Dotted`, `S2SToken`, `WebhookSignature`, `SignedRuns`). The complete printer and parser chain of service tokens and outbound
  webhooks: canonical JSON (RFC 8259, sections 4 to 7) in both escape modes, UTF-8, base64 and base64url (RFC
  4648, sections 3.2, 4 and 5), dot-joined segments, decimal timestamps, then the claim checks. ML-DSA is an
  ideal signature over a log of everything the key signed.
- **The JWKS cache** (`Jwks`, `JwksTasks`): alone, as a class refining an uncached lookup, and shared by
  concurrent requests.
- **Tenant isolation** (`Roles`, `Routes`, `OpaPolicy`, `Gateway`, `Callers`, `Accounts`, `UserServices`,
  `ResourceServices`, `TenantRuns`, `TenantWrites`, `Handlers`, `EndToEnd`). The OPA policy against
  the role gates of the services, the gateway plugin, and runs of authenticated requests over the shared tables. The classes of
  `Handlers`, over the service classes, are proved to do, alone, what the steps of a request do.
- **The fixed-window limiter** (`RateLimiter`).

Runs are folds over the sequence of steps taken; a step that is not enabled changes nothing. Everything the
code does not decide itself (clock, `uuid4`, Stripe's and the issuer's replies, signature bytes, whether a key
is available) is a parameter of the step or call, so the theorems hold for every choice of it.

Where the code does less than its comments or messages suggest, the proofs say exactly when:

- The event committed last does not always decide a payment's status (`LastCommitMayLose`): one that found the
  row already in its status sends no UPDATE, so it takes effect at its read. `LastCommitDecides` says exactly
  when it does decide; in the serial order, which places such an event at its read, the last one always does
  (`LastInOrderWins`).
- `duplicate=True` does not mean that the event was recorded: every `IntegrityError` is reported that way.
  `DuplicateWithoutRecord` gives the exact condition in any run, lost races included.
- Repeats of an event do not always change nothing (`RefusedInsertComesBack`); `RepeatsChangeNothing` gives
  the exact condition.
- The 409 "Payment intent already exists" also answers an unknown tenant or a Stripe status the schema does not
  list, such as "requires_action" (`UnlistedStatusConflicts`); `ChargeConflict` gives the exact condition in any
  run. The amount that is not positive in that condition cannot come through the API, whose schema asks for
  more than zero.
- The gateway falls back to a token's top-level `roles`, the services do not: `TopLevelRolesMislead` shows a
  forwarded request the service refuses, `ForwardedPassesGate` and `ForwardedEnters` say exactly when it does.
- `platform_admin` passes the gateway everywhere, but not every service's gate (`PlatformAdminAgainstGate`).

## Model

| member | source | states |
|---|---|---|
| `PaymentTables.LookupIsUnique` | services/payment-service/app/services/payment_service.py:194-197 | under the schema's constraints an intent id matches at most one row, so `scalar_one_or_none` never raises |
| `PaymentTables.CommitKeepsConsistent` | scripts/db-init.sql:55-75 | a commit that goes through leaves tables that meet every key, foreign key and check |
| `PaymentTables.LowerByAlphabet` | services/payment-service/app/services/payment_service.py:75 | each capital becomes the small letter at its place in the alphabet, every other character stays |
| `PaymentFlow.DeliveryEffect` | services/payment-service/app/services/payment_service.py:131-171 | what a committed delivery changes, read off the tables: its event row, the status of the row with its intent and of no other, or one new row with the event's tenant, user and amount |
| `PaymentFlow.DeliveryAnswer` | services/payment-service/app/services/payment_service.py:131-171 | exactly when a delivery commits, fails or is called a duplicate, with the whole answer in each case; without a commit nothing changes |
| `PaymentFlow.ProcessAnswer` | services/payment-service/app/services/payment_service.py:131-147 | 400 exactly for a missing id, type or object; every other event, of any type, is delivered as it is |
| `PaymentFlow.ConflictMeaning` | services/payment-service/app/services/payment_service.py:69-104 | alone, 409 exactly for a taken intent or row id, an unknown tenant, an amount that is not positive (which the API's schema keeps out) or a status the schema does not list; otherwise exactly the new row is added |
| `PaymentFlow.ChargeAnswer` | services/payment-service/app/services/payment_service.py:69-104 | tables and answer of a payment-intent request in every case, with the currencies, statuses and limits spelled out |
| `PaymentFlow.UnlistedStatusConflicts` | services/payment-service/app/services/payment_service.py:87-101 | a request with a new intent and nothing wrong with it gets that 409, its charge unstored, when Stripe answers requires_action |
| `PaymentSystem.AloneIsARun` | services/payment-service/app/services/payment_service.py:131-171 | the steps of one worker with nothing beside it give the tables and answer of the delivery as a whole, and a notification of the event's own intent, amount and tenant exactly for a committed success with an intent and a signing key |
| `PaymentSystem.ChargeAloneIsARun` | services/payment-service/app/services/payment_service.py:69-104 | the same for a payment-intent request: tables and answer as a whole, and no notification |
| `PaymentSafety.RunEvolves` | services/payment-service/app/services/payment_service.py:200-222 | over any interleaving no row or event is lost and a payment's tenant, user, intent, amount and currency never change |
| `PaymentSafety.RunIsSafe` | services/payment-service/app/services/payment_service.py:131-171 | the invariant of every reachable state: constraints hold, staged changes still fit the rows they were made for, notices are sound |
| `PaymentSafety.RecordingIsAtomic` | services/payment-service/app/services/payment_service.py:147-162 | an event row appears only in the commit that also writes its delivery's payment change; other than a payment-intent commit, no step without a new event changes payments |
| `PaymentSafety.EventCommitsOnce` | services/payment-service/app/services/payment_service.py:137-162 | over any run and any redelivery each event id is committed by at most one step, together with its payment effect |
| `PaymentSafety.NotifiedOnceAfterCommit` | services/payment-service/app/services/payment_service.py:164-165 | notifications name distinct events, each committed before, each a `payment_intent.succeeded` with the notified intent |
| `PaymentSafety.StatusHasCause` | services/payment-service/app/services/payment_service.py:87-95 | in every reachable state a status is the initial one, one a payment-intent request stored, or the mapping of a recorded event of the same intent |
| `PaymentSources.RowHasSource` | services/payment-service/app/services/payment_service.py:87-95 | in any run every payment row was there before, or has the tenant, user, amount and currency of a payment-intent request that arrived, or those and the intent of a webhook event that arrived |
| `PaymentSources.NoticeHasSource` | services/payment-service/app/services/payment_service.py:224-233 | in any run every notification has the event id, intent, amount and tenant of a payment_intent.succeeded event that arrived |
| `PaymentSerial.Activate` | services/payment-service/app/services/payment_service.py:221-222 | a transaction that changes no payment can be run at its read although it commits later: everything after it commits as before and only its event row is added |
| `PaymentSerial.CommitIsSerial` | services/payment-service/app/services/payment_service.py:149-162 | a change staged on an old read, if it commits, is what the delivery run at the commit would have done |
| `PaymentSerial.StepKeepsSerial` | services/payment-service/app/services/payment_service.py:131-171 | each step keeps the tables equal to replaying the committed transactions one at a time |
| `PaymentOrder.Serializable` | services/payment-service/app/services/payment_service.py:69-104 | the tables after any interleaving are those of running the committed transactions one at a time, each of which commits there |
| `PaymentOrder.OrderIsTheCommits` | services/payment-service/app/services/payment_service.py:157-162 | the serial order holds exactly the transactions some step committed, no worker twice |
| `PaymentOrder.OrderIsByEffect` | services/payment-service/app/services/payment_service.py:149-162 | each entry of the order takes effect at a step of its own worker, its commit or a payment read that staged nothing, and these steps come in the order of the entries |
| `PaymentOrder.WritersInCommitOrder` | services/payment-service/app/services/payment_service.py:157-162 | two transactions that write payments stand in the order of their commits |
| `PaymentOrder.RealTimeOrder` | services/payment-service/app/services/payment_service.py:131-171 | a worker that finished before another arrived stands before it in the order |
| `PaymentOrder.LastInOrderWins` | services/payment-service/app/services/payment_service.py:222 | after any interleaving the last delivery in the serial order that can write the intent's payment decides its status, whatever other events name the intent later |
| `PaymentOrder.CommitDecides` | services/payment-service/app/services/payment_service.py:221-222 | right after any commit of a tracking delivery the row has its status if and only if it staged a change or the row had that status already |
| `PaymentOrder.LastCommitDecides` | services/payment-service/app/services/payment_service.py:157-162 | the same at the end of any run, for the event whose commit was the last to speak of the intent |
| `PaymentOrder.ReaderDecides` | services/payment-service/app/services/payment_service.py:221-222 | a delivery that found the row in its status decides unless a transaction on the intent commits between its read and its commit, and then if and only if the last of these left that status |
| `PaymentOrder.LastCommitMayLose` | services/payment-service/app/services/payment_service.py:222 | a run in which the success commits last and the payment stays failed |
| `PaymentRedelivery.RepeatsChangeNothing` | services/payment-service/app/services/payment_service.py:137-171 | sequential deliveries leave the tables of the list without later repeats if and only if every repeat finds its event recorded or has a row that cannot be sent or is refused |
| `PaymentRedelivery.AcceptableRepeatsChangeNothing` | services/payment-service/app/services/payment_service.py:137-145 | so it is for every list whose inserts pass the checks |
| `PaymentRedelivery.RepeatReportsStoredIntent` | services/payment-service/app/services/payment_service.py:137-145 | a repeat changes nothing and reports the intent id the first delivery stored |
| `PaymentRedelivery.RefusedInsertComesBack` | services/payment-service/app/services/payment_service.py:158-162 | three deliveries whose repeat does change a payment, the first insert having been refused |
| `PaymentRedelivery.DuplicateWithoutRecord` | services/payment-service/app/services/payment_service.py:157-162 | in any run, a delivery is rolled back and answered as a duplicate without a record of its event exactly when the table refuses its row: intent taken, even by a race, bad amount, unknown tenant or taken id |
| `PaymentRedelivery.DuplicateAlone` | services/payment-service/app/services/payment_service.py:157-162 | the same for a delivery with nothing beside it, where only a refused row is left |
| `PaymentRedelivery.AnswersAreTruthful` | services/payment-service/app/services/payment_service.py:157-171 | in every reachable state an answer that is not a duplicate names a recorded event, with its type, intent and mapped status |
| `PaymentRedelivery.ChargeConflict` | services/payment-service/app/services/payment_service.py:87-101 | in any run a payment-intent request is answered 409 exactly when its row is refused at its commit, and then no table changes; a row it stores is the request's |
| `PaymentRedelivery.RetryAfterRace` | services/payment-service/app/services/payment_service.py:158-162 | a failed commit changes nothing; a delivery that lost only to a unique conflict finds its event recorded when run again, or commits by updating the winner's row |
| `PaymentServices.PaymentService.Save` | services/payment-service/app/services/payment_service.py:157-162 | the session's commit writes its whole work or nothing, an unchanged status being no work |
| `PaymentServices.PaymentService.FindByIntent` | services/payment-service/app/services/payment_service.py:195-197 | returns the one row with the intent id, or none |
| `PaymentServices.PaymentService.UpsertPaymentFromWebhook` | services/payment-service/app/services/payment_service.py:194-222 | stages the change planned for the event and nothing else; fails exactly for a tenant id that is no UUID |
| `PaymentServices.PaymentService.EmitSignedPaymentNotification` | services/payment-service/app/services/payment_service.py:224-253 | one notice of the event if the signing key is available, otherwise none |
| `PaymentServices.PaymentService.ProcessStripeEvent` | services/payment-service/app/services/payment_service.py:131-171 | tables, answer and notification of the whole method, duplicate and error paths included |
| `PaymentServices.PaymentService.CreatePaymentIntent` | services/payment-service/app/services/payment_service.py:69-104 | tables and answer for every Stripe reply and every commit result |
| `PaymentRoutes.AdmissionMeaning` | services/payment-service/app/api/v1/routes.py:33-45 | a request is admitted exactly for a caller with a tenant role and a tenant, unchanged and as that caller's own; 403 or 500 otherwise |
| `PaymentRoutes.IntentRoute.CreatePaymentIntent` | services/payment-service/app/api/v1/routes.py:33-59 | the route refuses by role or tenant claim, or gives tables and answer of the request's steps alone for the caller's own tenant |
| `PaymentRoutes.IntentsStayInTenant` | services/payment-service/app/api/v1/routes.py:33-59 | in any run whose requests come through the route, a payment that was not there before and is no webhook's was created by a caller with a tenant role, in that caller's own tenant and name |
| `PaymentServices.PaymentService.ListPayments` | services/payment-service/app/services/payment_service.py:106-115 | exactly the rows of the tenant, or all rows |
| `PaymentServices.PaymentService.GetPayment` | services/payment-service/app/services/payment_service.py:117-119 | the row with that id, if there is one |
| `Json.SortedDecidesSame` | shared/webhook_signer.py:23-26 | sorting keys at every depth identifies exactly the values that differ only in dict order |
| `Json.BeforeByCodePoint` | shared/webhook_signer.py:26 | keys stand in the order of their code points, a prefix first |
| `Json.GetFromSorted` | shared/s2s_token.py:103-105 | looking a key up after sorting gives what it gave before, itself sorted |
| `Decimals.ParseText` | shared/webhook_signer.py:36-53 | `int(str(n)) == n` for every integer, with Python's blanks, signs and underscores in the parser |
| `Decimals.TextIsDecimal` | shared/webhook_signer.py:37 | the decimal digits, most significant first, after a minus sign if negative |
| `JsonText.LoadsDumps` | shared/s2s_token.py:103-116 | parsing canonical JSON gives the value back, in both escape modes |
| `JsonText.DumpsIsCanonical` | shared/webhook_signer.py:23-26 | two values have the same canonical text if and only if they are equal but for dict order |
| `CanonicalText.DumpsIsPlain` | shared/webhook_signer.py:23-26 | the canonical text spelled out: keys ascending by code point at every depth, members and items joined by commas without blanks, the literals, and which characters each escape mode writes how |
| `Utf8.DecodesItsEncoding` | shared/s2s_token.py:108-112 | strict decoding accepts exactly the encodings, and each text has one |
| `Utf8.EncodesByBits` | shared/webhook_signer.py:26 | each character is the shortest UTF-8 form, as section 3 of RFC 3629 lays out its bits |
| `Base64.DecodeEncoded` | shared/pqc_signing.py:95-114 | both the lenient and the validating decoder undo the encoder on every byte string |
| `Base64.EncodesByAlphabet` | shared/pqc_signing.py:95-100 | three bytes are one 24-bit number written as four digits of the alphabet of section 4 of RFC 4648, with '=' for what is missing |
| `Base64.UrlByAlphabet` | shared/s2s_token.py:119-128 | the url-safe alphabet differs in its last two letters, both ways |
| `Base64.UrlRoundTrip` | shared/s2s_token.py:119-132 | url-safe encoding, padding stripped and put back by the token module's, the gateway's or the Keycloak script's formula, decoded: the bytes are back |
| `S2SToken.CreateS2SToken` | shared/s2s_token.py:21-53 | refuses exactly the extra claims that name a protected one; otherwise the token of all claims, the dict being extended in place |
| `S2SToken.SegmentRoundTrip` | shared/s2s_token.py:103-120 | a claims dict survives its token segment, which holds no dot and is not empty |
| `S2SToken.FreshToken` | shared/s2s_token.py:56-100 | a fresh token verifies exactly when it is unexpired, for the audience and from an allowed issuer, giving back all claims; otherwise the reason it is rejected for |
| `S2SToken.ClaimsMeaning` | shared/s2s_token.py:34-48 | the claims a fresh token gives back: each of the seven is the request's own value and every extra claim is there |
| `S2SToken.TokenShape` | shared/s2s_token.py:64-66 | splitting at the dots yields three parts, none empty, exactly for a text of three such segments |
| `S2SToken.AcceptedMeans` | shared/s2s_token.py:56-100 | a token is accepted if and only if its header, signature, seven claims, expiry, audience and issuer each pass, and the claims returned are its second segment's |
| `S2SToken.SignatureConversion` | shared/s2s_token.py:123-128 | standard to url-safe to standard is the identity on the base64 of a signature |
| `WebhookSignature.SignedBytesDetermine` | shared/webhook_signer.py:71-73 | two signed byte strings are equal if and only if timestamp and payload are, dict order aside |
| `WebhookSignature.HeadersSpelledOut` | shared/webhook_signer.py:29-40 | the three headers and the bytes signed, spelled out |
| `WebhookSignature.VerifyMeaning` | shared/webhook_signer.py:44-68 | a webhook verifies if and only if its headers, algorithm, timestamp and signature each pass |
| `WebhookSignature.HonestWebhook` | shared/webhook_signer.py:29-68 | a signed payload with its own headers is accepted exactly within the tolerance |
| `SignedRuns.WebhookIsNoToken` | shared/webhook_signer.py:71-73 | no webhook's signed bytes are ever a token's signing input |
| `SignedRuns.TimestampIsNoHeader` | shared/s2s_token.py:108-116 | no decimal timestamp reads as a token header segment, lenient decoding included |
| `SignedRuns.TokensAreAuthentic` | shared/s2s_token.py:56-100 | in any history of signings under one key, every accepted token has exactly the claims of one issued token, unexpired, right audience, allowed issuer |
| `SignedRuns.WebhooksAreAuthentic` | shared/webhook_signer.py:44-68 | in any such history every accepted webhook was signed with that timestamp and payload, within the tolerance |
| `Jwks.JWKSCache.Refresh` | shared/security_middleware.py:57-64 | a reply replaces the snapshot and its expiry; an error leaves both |
| `Jwks.JWKSCache.GetJwks` | shared/security_middleware.py:52-55 | fetches exactly when empty or expired |
| `Jwks.JWKSCache.FindKey` | shared/security_middleware.py:66-71 | the loop finds the first key with the kid |
| `Jwks.JWKSCache.GetKey` | shared/security_middleware.py:40-50 | new cache and answer of a call, all failure paths included |
| `Jwks.CacheRefinesLookup` | shared/security_middleware.py:40-71 | after any run, an answer is an uncached lookup in a snapshot less than the TTL old or fetched by this call; unknown only if the call's own fetch lacks the kid; at most two fetches |
| `Jwks.FetchBound` | shared/security_middleware.py:40-64 | with a clock that never goes back, at most T / ttl + 1 fetches over T seconds, plus one for each miss or failed renewal |
| `JwksTasks.AnswersAreFresh` | shared/security_middleware.py:40-71 | the same freshness for any interleaving of requests at their awaits, and at most two fetches each |
| `JwksTasks.AloneIsACall` | shared/security_middleware.py:40-64 | a request's steps with nothing beside them leave the cache and give the answer of one `get_key` call |
| `RateLimiter.FixedWindowRateLimiter.Allow` | tests/attacks/test_rate_limiting.py:13-17 | admits a call exactly when fewer than the limit were made by that identity in that minute |
| `RateLimiter.AdmittedInWindow` | tests/attacks/test_rate_limiting.py:13-17 | exactly min(limit, calls) admitted per identity and minute, in any time order |
| `RateLimiter.TwiceTheLimit` | tests/attacks/test_rate_limiting.py:13-17 | at most twice the limit in any 60 consecutive seconds |
| `RateLimiter.TwiceTheLimitIsReached` | tests/attacks/test_rate_limiting.py:13-17 | that bound is reached, for every limit |
| `RateLimiter.OthersDoNotCount` | tests/attacks/test_rate_limiting.py:13-17 | other identities' calls never change an answer |
| `OpaPolicy.EmptySegmentsIgnored` | opa/policies/authz.rego:43-56 | empty path segments, wherever inserted, never change the decision or the resource kind, for which the two rules never give two values |
| `OpaPolicy.AllowMeaning` | opa/policies/authz.rego:8-83 | the whole policy as a table of who may do what to which kind of resource |
| `OpaPolicy.UpperByAlphabet` | opa/policies/authz.rego:38-39 | each small letter of the method becomes the capital at its place, every other character stays |
| `OpaPolicy.MonotoneInRoles` | opa/policies/roles.rego:7-14 | more roles never turn an allow into a deny |
| `OpaPolicy.GatewayAgainstGate` | opa/policies/authz.rego:8-83 | for callers with a tenant and without platform_admin: allowed if and only if the service's role gate passes, reading one user or one payment taking tenant_admin too |
| `OpaPolicy.PlatformAdminAgainstGate` | shared/security_middleware.py:131-139 | with platform_admin among any roles the policy always allows, and the gate passes unless it is one of the tenant-only routes and no tenant role held beside it opens it |
| `Gateway.SplitPath` | gateway/plugins/opa-authz/handler.lua:69-75 | the loop yields the maximal runs without a slash, in order |
| `Gateway.SegmentsSplit` | gateway/plugins/opa-authz/handler.lua:69-75 | a slash only separates: leading, trailing and doubled ones add nothing |
| `Gateway.Contains` | gateway/plugins/opa-authz/handler.lua:52-66 | true exactly for the same string or a list that holds it |
| `Gateway.Request.Access` | gateway/plugins/opa-authz/handler.lua:94-167 | decision and headers for every request, in the plugin's order of checks |
| `Gateway.DecisionMeaning` | gateway/plugins/opa-authz/handler.lua:94-167 | the whole decision with the status of each rejection: content type, claims, audience, policy server, policy |
| `Gateway.HeadersMeaning` | gateway/plugins/opa-authz/handler.lua:113-130 | tenant, user and comma-joined roles of the token in their headers, every other header as sent |
| `Gateway.ConcatAppends` | gateway/plugins/opa-authz/handler.lua:129 | the roles header joins its parts with commas |
| `Gateway.GatewayPathsAreNormal` | gateway/plugins/opa-authz/handler.lua:69-75 | what the gateway sends to the policy never needs the policy's empty-segment guard |
| `Gateway.RolesAgree` | gateway/plugins/opa-authz/handler.lua:78-81 | gateway and services read the same roles if and only if the realm has a role list or nothing else names roles |
| `Gateway.ForwardedPassesGate` | gateway/plugins/opa-authz/handler.lua:94-167 | a request for an implemented route forwarded without platform_admin passes the service's gate if and only if the token's realm lists roles |
| `Gateway.TopLevelRolesMislead` | gateway/plugins/opa-authz/handler.lua:78-81 | a forwarded request that the service's gate refuses |
| `Gateway.ForwardedTenantHeader` | gateway/plugins/opa-authz/handler.lua:119-130 | a forwarded request without platform_admin carries its token's tenant whatever the client sent |
| `EndToEnd.ForwardedEnters` | gateway/plugins/opa-authz/handler.lua:94-167 | the same at the handler itself: a forwarded request enters if and only if the realm lists roles, and otherwise gets 403 with no table changed |
| `UserServices.UserService.ListUsers` | services/user-service/app/services/user_service.py:23-32 | exactly the caller's tenant's users; for platform_admin the asked tenant's or all; fails exactly on a tenant claim that is no UUID |
| `UserServices.UserService.GetUser` | services/user-service/app/services/user_service.py:34-42 | the one user with that id, or with that Keycloak id when the text is no UUID |
| `UserServices.UserService.GetUserByEmail` | services/user-service/app/services/user_service.py:44-51 | the one user with that e-mail in that tenant |
| `UserServices.UserService.CreateUser` | services/user-service/app/services/user_service.py:53-69 | succeeds exactly without a taken id, Keycloak id or e-mail in the tenant, an unknown tenant or role; then the new active user field by field and every other row as before, otherwise nothing changed |
| `UserServices.UserService.UpdateProfile` | services/user-service/app/services/user_service.py:71-84 | the last value given for each field is stored, all of them or nothing; refused exactly for a null, an unlisted role or status or an e-mail taken in the tenant; every other column and row as before |
| `UserServices.UserService.DeactivateUser` | services/user-service/app/services/user_service.py:86-89 | changes that user's status to disabled and nothing else; it cannot fail |
| `Accounts.LookupsAreUnique` | scripts/db-init.sql:29-41 | no lookup by id, Keycloak id or e-mail within a tenant matches two rows |
| `ResourceServices.ResourceService.ListResources` | services/resource-service/app/services/resource_service.py:23-32 | exactly the tenant's rows, or all |
| `ResourceServices.ResourceService.GetResource` | services/resource-service/app/services/resource_service.py:34-36 | the row with that id, if there is one |
| `ResourceServices.ResourceService.CreateResource` | services/resource-service/app/services/resource_service.py:38-61 | succeeds exactly without a taken id, a name taken in the tenant or an unknown tenant; then the new row field by field and every other row as before, otherwise nothing changed |
| `ResourceServices.ResourceService.UpdateRow` | services/resource-service/app/services/resource_service.py:63-76 | the last value given for each field is stored, all of them or nothing; refused exactly for a null name or one taken in the tenant; every other column and row as before |
| `ResourceServices.ResourceService.DeleteRow` | services/resource-service/app/services/resource_service.py:78-80 | removes that row and no other |
| `Accounts.UserFieldsDetermine` | services/user-service/app/services/user_service.py:75-76 | the setattr loop computes the one draft in which each field has the last value given, or its old one |
| `Accounts.ResourceFieldsDetermine` | services/resource-service/app/services/resource_service.py:67-68 | the same for resources |
| `Accounts.UpdatesOnlyChanges` | services/user-service/app/services/user_service.py:71-84 | an update writes only columns given a new value, so updates of different columns do not undo each other, and every other row stays |
| `TenantRuns.AloneIsARun` | services/user-service/app/api/v1/routes.py:51-133 | the steps of one handler with nothing beside it give the tables and reply of the request as a whole, for a request that creates no row whatever uuids are given out |
| `Handlers.UserRoutes.ListUsers` | services/user-service/app/api/v1/routes.py:29-48 | the handler over the service class answers as its steps alone |
| `Handlers.UserRoutes.GetUser` | services/user-service/app/api/v1/routes.py:51-71 | the same, with the fallback to the caller's own e-mail |
| `Handlers.UserRoutes.CreateUser` | services/user-service/app/api/v1/routes.py:74-92 | tables and reply are those of the handler's steps alone |
| `Handlers.UserRoutes.UpdateUser` | services/user-service/app/api/v1/routes.py:95-113 | tables and reply are those of the handler's steps alone |
| `Handlers.UserRoutes.DeactivateUser` | services/user-service/app/api/v1/routes.py:116-133 | tables and reply are those of the handler's steps alone |
| `Handlers.ResourceRoutes.ListResources` | services/resource-service/app/api/v1/routes.py:29-46 | the handler over the service class answers as its steps alone |
| `Handlers.ResourceRoutes.GetResource` | services/resource-service/app/api/v1/routes.py:49-65 | the same, with the tenant check on the row read |
| `Handlers.ResourceRoutes.CreateResource` | services/resource-service/app/api/v1/routes.py:68-87 | tables and reply are those of the handler's steps alone |
| `Handlers.ResourceRoutes.UpdateResource` | services/resource-service/app/api/v1/routes.py:90-108 | tables and reply are those of the handler's steps alone |
| `Handlers.ResourceRoutes.DeleteResource` | services/resource-service/app/api/v1/routes.py:111-128 | tables and reply are those of the handler's steps alone |
| `TenantRuns.RunIsSafe` | services/user-service/app/api/v1/routes.py:34-154 | the invariant of every reachable state of any interleaving of handlers: constraints hold, and what a handler has checked stays true until its commit |
| `TenantRuns.TenantsNeverChange` | services/resource-service/app/services/resource_service.py:63-76 | over any run no user is lost or changes tenant, and no resource id stands for two tenants |
| `TenantRuns.WritesAreAuthorized` | services/resource-service/app/api/v1/routes.py:68-154 | who may have written a changed row: a tenant_admin of its tenant for users; for resources a tenant role of its tenant or with platform_admin, creation only in one's own tenant, removal only by tenant_admin |
| `TenantRuns.RepliesStayInTenant` | services/payment-service/app/api/v1/routes.py:62-98 | without platform_admin every user, resource or payment row ever returned is of the caller's tenant |
| `TenantRuns.ListsAreComplete` | services/resource-service/app/api/v1/routes.py:29-46 | for every caller the three list routes answer exactly the rows of the scope, or the error its roles or tenant claim call for |
| `TenantRuns.ReadsAreExact` | services/resource-service/app/api/v1/routes.py:49-154 | for every caller a resource or payment is answered with 403 without a role, 404 without a row, the row to platform_admin and its own tenant, 500 for a claim that is no UUID and 403 otherwise |
| `TenantRuns.UserReadsAreExact` | services/user-service/app/api/v1/routes.py:51-161 | to whom exactly a user row is shown, found by its key or by the self-lookup's e-mail, and which error everybody else gets |
| `TenantWrites.CreateUserAnswer` | services/user-service/app/api/v1/routes.py:74-92 | tables and answer of creating a user, for every caller and row |
| `TenantWrites.ChangeUserAnswer` | services/user-service/app/api/v1/routes.py:95-113 | tables and answer of updating a user, each column with the last value given |
| `TenantWrites.DeactivateAnswer` | services/user-service/app/api/v1/routes.py:116-133 | tables and answer of deactivating a user, who stays as disabled |
| `TenantWrites.CreateResourceAnswer` | services/resource-service/app/api/v1/routes.py:68-87 | tables and answer of creating a resource, for every caller and row |
| `TenantWrites.ChangeResourceAnswer` | services/resource-service/app/api/v1/routes.py:90-108 | tables and answer of updating a resource, each column with the last value given |
| `TenantWrites.RemoveAnswer` | services/resource-service/app/api/v1/routes.py:111-128 | tables and answer of deleting a resource: the row is gone for whom the route permits |
| `TenantRuns.WritesKeepConsistent` | scripts/db-init.sql:29-53 | every write of the two services leaves tables that meet every constraint |
| `TenantRuns.ConflictChangesNothing` | services/user-service/app/services/user_service.py:53-84 | in any run 409 exactly for a broken key, foreign key, check or NOT NULL, 500 only for a resource removed meanwhile, and then no table changed; disabling never fails |

## Left out

- ML-DSA, RS256 and Stripe's HMAC: library code; ML-DSA is the oracle of `SignedRuns`, `verify_jwt_token` and `verify_stripe_event` are not modelled.
- Vault, httpx, the Stripe SDK, secret lookups and the clock: their results are parameters.
- JSON floats, NaN and Infinity, lone surrogates, keys that are not strings, and Python's limit on the digits of an integer literal.
- An `iss` claim that is a list: the code raises TypeError, the model rejects it as a wrong issuer; a token issued by `create_s2s_token` never has one.
- Decimal digits outside ASCII, which `int()` also reads.
- A Stripe field that is present with the value null, and Stripe's `metadata` beyond the tenant and user ids.
- `lower()` and `upper()` outside ASCII.
- The `tenants` table is fixed during a run: the admin service, which writes it, is not modelled beyond its role gates.
- An amount beyond 32 bits is the driver's error and is checked before the constraints.
- Timestamps of rows and the order of list results; `updated_at` triggers, row-level security and `set_tenant_context`.
- The text form of a UUID: `TenantText`, `UserRef` and `TenantClaim` say which UUID a text denotes, if any.
- `uuid4` giving an id out twice: in `TenantRuns` a fresh id is one no resource ever had; the payment runs allow any id.
- `JwksTasks` measures a snapshot's age from when it was stored, as the code does, not from when the issuer sent it.
- `RSAAlgorithm.from_jwk` on the key found, and errors in the shape of the JWK Set.
- Percent-encoding of paths, role claims that are a string and not a list, and how strict `ngx.decode_base64` is.
- Class methods have nothing beside them; interleavings are those of `PaymentSystem`, `TenantRuns` and `JwksTasks`, which work on values.
- Metadata and health routes, Pydantic validation, the resource URL denylist, logging, error payloads and the policy's unused `deny_bola` rule.
