# Building management server: access control and the agreement lifecycle

This project models the request-gating and agreement-lifecycle logic of the
building-management backend (`index.js`) over an abstract in-memory store,
and proves what that logic promises.

- **The store** (`store.dfy`) has four collections: users keyed by email,
  agreements and coupons keyed by document id, and apartments keyed by
  (apartmentNo, blockName, floor). `UpdateOne` reports the `modifiedCount` as
  the store does. The count is 1 only when the document exists and the `$set`
  changes a value, so setting a value that is already stored counts as no
  modification. Ids come from a counter kept in the state, which stands for
  the ObjectId generator.
- **`verifyFBToken`** (`auth.dfy`) models JavaScript's `split(" ")` and takes
  its field 1. The identity provider's `verifyIdToken` is a function parameter
  from token to email, or `None` when the provider refuses the token.
- **`verifyAdmin`/`verifyMember`/`verifyUser`** (`guards.dfy`) only let a
  request through when the stored role exactly matches the guard's role.
  There is no role hierarchy.
- **Handlers** (`handlers.dfy`): each route of the core is a function from the
  state before a request to the response and the state after it. The routes
  are POST /users, POST /agreements, PATCH /agreements/requests/:id,
  PATCH /members/:email/role, POST /coupons, PUT /coupons/:id/availability,
  PUT /coupons/:code/deactivate and GET /admin-stats. `Dispatch` runs a
  request through its middleware chain and `Run` handles a sequence of
  requests. `Valid` is the store invariant:
  - at most one agreement per email;
  - every agreement status is "pending" or "checked";
  - coupon codes are unique;
  - every stored id was issued by the counter.
  `Advances` says that an agreement only ever moves from "pending" to
  "checked".
- **Server** (`server.dfy`): the class `Db` holds the collections as fields.
  It has one method per route, which makes the source's store calls in the
  source's order. The decide route is the main case: it updates the status,
  is gated on `modifiedCount`, promotes the user and then marks the
  apartment. Each method is proved to return the response and leave the
  state that `Handlers` specifies.
- **Properties** (`properties.dfy`): lemmas about the handlers and about any
  sequence of requests.

The model follows the code where a stricter design might be expected:
- A rejected agreement also marks its apartment "unavailable".
- The status update filters only by id, so any status other than "checked"
  counts as decidable.
- The user who is promoted is the `userEmail` from the request body, not the
  email on the agreement.
- Role strings are not restricted to user/member/admin.

## Model

| member | source | states |
|---|---|---|
| Store.UpdateOne | index.js:236-241 | `modifiedCount` is 1 exactly when the document exists and the `$set` changes it, and the count is at most 1; with count 0 the collection is unchanged; otherwise only that document changes |
| Store.FirstWithCode | index.js:367-370 | `updateOne({couponCode})` selects a coupon with that code, the earliest in insertion order, and selects none exactly when no coupon has the code |
| Store.RoomsPartition | index.js:444-450 | `availableRooms + unavailableRooms == totalRooms` |
| Store.RoleCountsBounded | index.js:451-454 | users with one role and members with another are disjoint, so together they count at most all users |
| Auth.Split | index.js:56 | `split(" ")` yields at least one field, no field contains a space, and joining the fields with spaces gives back the header |
| Auth.SplitJoin | index.js:56 | splitting fields joined by a space gives back those fields when none contains a space (the reverse round trip) |
| Auth.BearerToken | index.js:51-59 | a missing or empty header yields no token (the first 401); a token that passes both 401 checks is non-empty and contains no space |
| Auth.BearerTokenOf | index.js:51-59 | every header `<scheme> <token>[ <rest>]` with a space-free scheme and a non-empty, space-free token yields that token |
| Auth.BearerTokenShape | index.js:51-59 | a present header yields a token only when it has that shape, so a header without a space or with an empty second field gives 401 |
| Auth.VerifyFBToken | index.js:50-70 | without a token: 401 "unauthorized access" whatever the provider would answer; otherwise the request proceeds exactly when the provider accepts the token, with the provider's email |
| Guards.Authorize | index.js:73-104 | the request proceeds exactly when a user with the principal's email exists and its role equals the guard's role; otherwise 403 with the guard's message |
| Guards.Admit | index.js:50-81 | token check then role check: the request proceeds exactly when the provider accepts the bearer token and the stored role of its email matches exactly; otherwise 401 or 403 |
| Guards.GuardsExclusive | index.js:73-104 | no role passes two guards, so an admin is refused by `verifyMember` and `verifyUser` |
| Handlers.RegisterUser | index.js:131-150 | 400 exactly when the email is missing; no change then or when the user exists; otherwise only the users change, by one new email, and stored users are kept |
| Handlers.SubmitAgreement | index.js:180-198 | 200 exactly when the email is present and has no agreement; otherwise no change; only the agreements change, by one "pending" agreement for the email under the fresh id |
| Handlers.DecideAgreement | index.js:226-274 | 200 exactly when the agreement exists and is not yet "checked", which it then becomes; otherwise no change; coupons and ids are untouched and no record is added or removed |
| Handlers.ChangeRole | index.js:283-297 | always 200 with success exactly when the stored role differs; only the named user changes, and it gets the role |
| Handlers.AddCoupon | index.js:317-329 | 200 exactly when no coupon has the code; otherwise no change; only the coupons change, by the new coupon under the fresh id |
| Handlers.SetCouponAvailability | index.js:336-363 | 200 exactly when the coupon exists and its flag differs; otherwise no change; only that coupon's flag changes |
| Handlers.DeactivateCoupon | index.js:364-382 | 200 only when some coupon has the code; otherwise no change; coupons with other codes and the other collections are unchanged |
| Handlers.Dispatch | index.js:130-463 | a request that is not answered 200 writes nothing; no request deletes a user or an apartment, and ids only grow |
| Handlers.Run | index.js:130-463 | over any sequence of requests, no user or apartment is deleted and ids only grow |
| Handlers.AdminStats | index.js:443-463 | the stats report `availableRooms + unavailableRooms == totalRooms == number of apartments` and `totalUsers + totalMembers <= number of users` |
| HandlerProperties.SubmitRejectsSecondAgreement | index.js:180-190 | if the email already has an agreement, in any status, the submission gets 400 and the store is unchanged |
| HandlerProperties.SubmitInsertsOnePending | index.js:192-197 | a first submission inserts exactly one agreement under a fresh id, "pending" with role "user"; it is then the only agreement for that email, and nothing else changes |
| HandlerProperties.SubmitPreservesValid | index.js:180-197 | submission keeps at most one agreement per email |
| HandlerProperties.DecideGate | index.js:236-245 | a decision succeeds exactly when the id exists and the status is not yet "checked"; on failure it gives 400 and writes nothing; on success the agreement becomes "checked" |
| HandlerProperties.DecidePromotesOnlyUserEmail | index.js:247-253 | after the gate, only `userEmail` may change: on "accept" with a non-empty `userEmail` that user becomes a member; otherwise the users are unchanged; no other user is touched |
| HandlerProperties.DecideMarksApartmentUnavailable | index.js:254-271 | after the gate, on accept and on reject, the agreement's apartment becomes "unavailable" and every other apartment is unchanged |
| HandlerProperties.DecideTwice | index.js:236-245 | a second decision on the same agreement, with any action and user, gets 400 and changes no agreement, user or apartment |
| HandlerProperties.DecidePreservesValid | index.js:226-274 | a decision keeps the store invariant and only moves an agreement from "pending" to "checked" |
| HandlerProperties.RegisterUserOnce | index.js:131-150 | no email: 400 and no change; an existing email: no change; otherwise exactly one new user with the supplied role, or "user" if none was supplied |
| HandlerProperties.ChangeRoleReportsChange | index.js:283-297 | always 200 with success exactly when a stored user's role differs from the requested one; the new state is the old one with that user given the role; success is true exactly when some user record changed |
| HandlerProperties.AddCouponRejectsDuplicate | index.js:317-329 | a coupon whose code is already stored, including a missing code, gets 400 and nothing is inserted |
| HandlerProperties.AddCouponInsertsOne | index.js:326-328 | a coupon with a new code gets 200 with the fresh id, and the new state is the old one plus that coupon under the fresh id |
| HandlerProperties.AddCouponPreservesValid | index.js:317-329 | adding coupons keeps coupon codes unique |
| HandlerProperties.AvailabilityReportsChange | index.js:336-363 | 200 "Availability updated" exactly when the coupon exists and its flag changes, and then only that coupon's flag changes; otherwise 404 "Coupon not found" and no change |
| HandlerProperties.DeactivateReportsChange | index.js:364-382 | with unique codes: 200 exactly when the coupon with that code is not already `available: false`, and then only that coupon changes, to `available: false`; otherwise 404 and no change |
| HandlerProperties.DeactivateTwice | index.js:364-382 | deactivating the same code a second time gets 404 and changes nothing |
| HandlerProperties.ProtectedWithoutTokenRefused | index.js:50-59 | every admin route without a bearer token gets 401 "unauthorized access" and writes nothing, whatever the identity provider would answer |
| HandlerProperties.ProtectedNeedsAdmin | index.js:73-81 | every admin route whose principal's stored role is not exactly "admin" gets 403 "forbidden access 1" and writes nothing |
| HandlerProperties.DispatchPreservesValid | index.js:130-463 | every request keeps the store invariant, only advances agreements from "pending" to "checked", and never deletes a user |
| HandlerProperties.RunPreservesValid | index.js:130-463 | after any sequence of requests the invariant holds, every earlier agreement has only moved from "pending" to "checked", and no user has been deleted |
| HandlerProperties.AcceptScenario | index.js:180-274 | submit then accept for a@x.com and apartment (12, B, 3): the agreement is "checked", the user is a member and the apartment is "unavailable"; accepting again gets 400 and changes nothing |
| Server.Db.FindAgreementByEmail | index.js:186 | `findOne({email})` finds an agreement with that email exactly when one exists |
| Server.Db.FindAgreement | index.js:255-257 | `findOne({_id})` returns the stored agreement exactly when the id exists |
| Server.Db.FindCouponByCode | index.js:319-321 | `findOne({couponCode})` finds a coupon with that code exactly when one exists |
| Server.Db.PostUser | index.js:131-150 | after the request, the response and the collections are those of `Handlers.RegisterUser` |
| Server.Db.PostAgreement | index.js:180-198 | the existence check, then the insert of the pending agreement under a fresh id, give what `Handlers.SubmitAgreement` specifies |
| Server.Db.PatchAgreementRequest | index.js:226-274 | the middleware chain, then the status update gated on `modifiedCount`, the promotion and the apartment update, give what the admin-gated `Handlers.DecideAgreement` specifies |
| Server.Db.PatchMemberRole | index.js:283-297 | the middleware chain, then `updateOne` with success equal to `modifiedCount === 1`, give what the admin-gated `Handlers.ChangeRole` specifies |
| Server.Db.PostCoupon | index.js:317-329 | the duplicate-code check, then the insert, give what `Handlers.AddCoupon` specifies |
| Server.Db.PutCouponAvailability | index.js:336-363 | the middleware chain, then `updateOne` with 200 exactly when `modifiedCount === 1`, give what the admin-gated `Handlers.SetCouponAvailability` specifies |
| Server.Db.PutCouponDeactivate | index.js:364-382 | `updateOne({couponCode})` with 200 exactly when `modifiedCount > 0` gives what `Handlers.DeactivateCoupon` specifies |
| Server.Db.GetAdminStats | index.js:443-463 | reads only; the response is the admin-gated `Handlers.AdminStats`, and on 200 the available and unavailable rooms add up to all rooms |

## Left out

- Express, CORS, dotenv, server start-up, the listening port and the MongoDB connection are I/O plumbing. The store is the four maps above.
- The identity provider's `verifyIdToken` is a foreign call, taken as a parameter. A decoded token that has no email claim is not modelled.
- The model has no store or provider faults: any `updateOne` or `findOne` that throws is left out, and so is the 500 of the availability route.
- A malformed id string is not modelled because ids are taken as well formed. In the source, `new ObjectId(id)` throws, which gives a 500 in the availability route and an unhandled rejection in the decide route.
- Concurrent requests do not interleave in the model: each request is handled to the end before the next starts. The race between two decisions on one agreement is therefore not modelled.
- Request bodies are values. The source assigns `role` and `status` on `req.body` in place, and the model keeps those values in local variables.
- Only the fields the core reads or writes are kept. Other body fields, `agreementTime`, an apartment's missing `status` field, and coupon fields other than the code and the flag are left out.
- A missing or falsy email, role, action or `userEmail` in the body is the empty string. A coupon's `couponCode` and `available` are optional instead, because a missing one is stored and matched as null. JavaScript values of other types (a numeric role, a string apartment number, a non-boolean `available`) are not modelled.
- Handlers.SetCouponAvailability: a coupon whose `available` field is absent and one whose `available` is null are the same `None`. Setting null on an absent field counts as a modification in the store but not in the model.
- PatchMemberRole: a body without `role` makes the store set the role to null; the model always sets the given string.
- Users are keyed by email and apartments by their triple, so duplicate documents in those collections are not modelled.
- Server.Db.PatchAgreementRequest: the re-read `findOne` of the agreement always finds it, because nothing runs between the status update and the read.
- Store.FirstWithCode: the collection's natural order is taken to be id order.
- The Stripe payment intent, announcements, payments, and the apartment, user, member and coupon listing routes are not part of the core. Neither is GET /agreements/requests. `verifyMember` and `verifyUser` guard only those routes, so they are modelled as guards and not through routes.
