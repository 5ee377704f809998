/**
 * The route handlers of the core as functions from the store's state before
 * a request to the response and the state after it. Each handler is written
 * by what it achieves; the class in module Server performs the same
 * handlers as the source does, one store call at a time, and is proved to
 * agree with these functions.
 */
module Handlers {
  import opened Wrappers
  import opened Store
  import opened Http
  import opened Guards

  /** The four collections, and the next identifier the store will hand out. */
  datatype State = State(
    users: map<string, User>,
    agreements: map<Id, Agreement>,
    apartments: map<ApartmentKey, Apartment>,
    coupons: map<Id, Coupon>,
    nextId: Id)

  /** The fields of a POST /agreements body the model keeps; an absent email is "". */
  datatype AgreementRequest = AgreementRequest(email: string, apartment: ApartmentKey)

  // ---------------------------------------------------------------------
  // The store invariant

  predicate OneAgreementPerEmail(agreements: map<Id, Agreement>)
  {
    forall i, j :: i in agreements && j in agreements && agreements[i].email == agreements[j].email ==> i == j
  }

  predicate StatusesKnown(agreements: map<Id, Agreement>)
  {
    forall i :: i in agreements ==> agreements[i].status == Pending || agreements[i].status == Checked
  }

  predicate CouponCodesUnique(coupons: map<Id, Coupon>)
  {
    forall i, j :: i in coupons && j in coupons && coupons[i].code == coupons[j].code ==> i == j
  }

  /** Every stored identifier was handed out before `nextId`. */
  predicate IdsIssued(s: State)
  {
    && (forall i :: i in s.agreements ==> i < s.nextId)
    && (forall i :: i in s.coupons ==> i < s.nextId)
  }

  predicate Valid(s: State)
  {
    && OneAgreementPerEmail(s.agreements)
    && StatusesKnown(s.agreements)
    && CouponCodesUnique(s.coupons)
    && IdsIssued(s)
  }

  /**
   * The agreement lifecycle between two states: no agreement disappears, and
   * an agreement either stays as it was or moves from "pending" to
   * "checked" with nothing else changed.
   */
  predicate Advances(before: map<Id, Agreement>, after: map<Id, Agreement>)
  {
    forall id :: id in before ==>
      id in after &&
      (after[id] == before[id] ||
       (before[id].status == Pending && after[id] == before[id].(status := Checked)))
  }

  predicate HasAgreement(agreements: map<Id, Agreement>, email: string)
  {
    exists id :: id in agreements && agreements[id].email == email
  }

  predicate HasCouponCode(coupons: map<Id, Coupon>, code: Option<string>)
  {
    exists id :: id in coupons && coupons[id].code == code
  }

  // ---------------------------------------------------------------------
  // Handlers

  /** POST /users: register a user once, with the supplied role or "user". */
  function RegisterUser(s: State, email: string, role: string): (result: (Response, State))
    ensures result.0.code == 400 <==> email == ""
    ensures email == "" || email in s.users ==> result.1 == s
    ensures result.1 == s.(users := result.1.users)
    ensures result.1.users.Keys == if email == "" then s.users.Keys else s.users.Keys + {email}
    ensures forall e :: e in s.users ==> result.1.users[e] == s.users[e]
  {
    if email == "" then (Response(400, Message("Email is required")), s)
    else if email in s.users then (Response(200, Outcome(true, "User already Exist")), s)
    else
      var stored := if role == "" then UserRole else role;
      (Response(200, Flag(true)), s.(users := s.users[email := User(stored)]))
  }

  /** POST /agreements: one agreement per email, inserted as a pending request of a "user". */
  function SubmitAgreement(s: State, body: AgreementRequest): (result: (Response, State))
    ensures result.0.code == 200 <==> body.email != "" && !HasAgreement(s.agreements, body.email)
    ensures result.0.code != 200 ==> result.1 == s
    ensures result.1.users == s.users && result.1.apartments == s.apartments && result.1.coupons == s.coupons
    ensures result.0.code == 200 ==>
              && result.1.agreements.Keys == s.agreements.Keys + {s.nextId}
              && result.1.agreements[s.nextId].status == Pending
              && result.1.agreements[s.nextId].email == body.email
  {
    if body.email == "" then (Response(400, Message("Missing email.")), s)
    else if HasAgreement(s.agreements, body.email) then
      (Response(400, Message("You have already made an agreement.")), s)
    else
      var agreement := Agreement(body.email, body.apartment, Pending, UserRole);
      (Response(200, Inserted(s.nextId)),
       s.(agreements := s.agreements[s.nextId := agreement], nextId := s.nextId + 1))
  }

  /** Whether the status update of a decision modifies the agreement. */
  predicate Decidable(s: State, id: Id)
  {
    id in s.agreements && s.agreements[id].status != Checked
  }

  /**
   * PATCH /agreements/requests/:id once the admin is admitted. The agreement
   * becomes "checked"; on "accept" with a non-empty `userEmail` that user, if
   * stored, becomes a member; the agreement's apartment, if stored, becomes
   * unavailable whatever the action. An agreement that is absent or already
   * checked is refused and nothing is written.
   */
  function DecideAgreement(s: State, id: Id, action: string, userEmail: string): (result: (Response, State))
    ensures result.0.code == 200 <==> Decidable(s, id)
    ensures !Decidable(s, id) ==> result.1 == s
    ensures result.1.coupons == s.coupons && result.1.nextId == s.nextId
    ensures result.1.agreements.Keys == s.agreements.Keys
    ensures result.1.users.Keys == s.users.Keys && result.1.apartments.Keys == s.apartments.Keys
    ensures Decidable(s, id) ==> result.1.agreements[id].status == Checked
  {
    if !Decidable(s, id) then (Response(400, Message("Failed to update agreement")), s)
    else
      var agreement := s.agreements[id];
      var key := agreement.apartment;
      var users :=
        if action == "accept" && userEmail != "" && userEmail in s.users
        then s.users[userEmail := s.users[userEmail].(role := Member)]
        else s.users;
      var apartments :=
        if key in s.apartments
        then s.apartments[key := s.apartments[key].(status := Unavailable)]
        else s.apartments;
      (Response(200, Flag(true)),
       s.(agreements := s.agreements[id := agreement.(status := Checked)],
          users := users,
          apartments := apartments))
  }

  /** PATCH /members/:email/role once the admin is admitted; success means a role changed. */
  function ChangeRole(s: State, email: string, role: string): (result: (Response, State))
    ensures result.0 == Response(200, Flag(email in s.users && s.users[email].role != role))
    ensures result.1 == s.(users := result.1.users)
    ensures result.1.users.Keys == s.users.Keys
    ensures email in s.users ==> result.1.users[email].role == role
    ensures forall e :: e in s.users && e != email ==> result.1.users[e] == s.users[e]
  {
    if email in s.users then
      (Response(200, Flag(s.users[email].role != role)),
       s.(users := s.users[email := s.users[email].(role := role)]))
    else (Response(200, Flag(false)), s)
  }

  /** POST /coupons: insert the coupon unless its code is already taken. */
  function AddCoupon(s: State, coupon: Coupon): (result: (Response, State))
    ensures result.0.code == 200 <==> !HasCouponCode(s.coupons, coupon.code)
    ensures result.0.code != 200 ==> result.1 == s
    ensures result.1.users == s.users && result.1.agreements == s.agreements
    ensures result.1.apartments == s.apartments
    ensures result.0.code == 200 ==>
              result.1.coupons.Keys == s.coupons.Keys + {s.nextId} && result.1.coupons[s.nextId] == coupon
  {
    if HasCouponCode(s.coupons, coupon.code) then
      (Response(400, Message("Coupon code already exists.")), s)
    else
      (Response(200, Inserted(s.nextId)),
       s.(coupons := s.coupons[s.nextId := coupon], nextId := s.nextId + 1))
  }

  /**
   * PUT /coupons/:id/availability once the admin is admitted; a body
   * without `available` sets the stored flag to null (`None`).
   */
  function SetCouponAvailability(s: State, id: Id, available: Option<bool>): (result: (Response, State))
    ensures result.0.code == 200 <==> id in s.coupons && s.coupons[id].available != available
    ensures result.0.code != 200 ==> result.1 == s
    ensures result.1 == s.(coupons := result.1.coupons)
    ensures result.1.coupons.Keys == s.coupons.Keys
    ensures id in s.coupons ==> result.1.coupons[id] == s.coupons[id].(available := available)
    ensures forall other :: other in s.coupons && other != id ==> result.1.coupons[other] == s.coupons[other]
  {
    if id in s.coupons && s.coupons[id].available != available then
      (Response(200, Outcome(true, "Availability updated")),
       s.(coupons := s.coupons[id := s.coupons[id].(available := available)]))
    else (Response(404, Outcome(false, "Coupon not found")), s)
  }

  /** PUT /coupons/:code/deactivate: switch off the first coupon with the code. */
  function DeactivateCoupon(s: State, code: string): (result: (Response, State))
    ensures result.0.code == 200 ==> HasCouponCode(s.coupons, Some(code))
    ensures result.0.code != 200 ==> result.1 == s
    ensures result.1 == s.(coupons := result.1.coupons)
    ensures result.1.coupons.Keys == s.coupons.Keys
    ensures forall id :: id in s.coupons && s.coupons[id].code != Some(code) ==>
              result.1.coupons[id] == s.coupons[id]
  {
    var first := FirstWithCode(s.coupons, Some(code));
    if first.Some? && s.coupons[first.value].available != Some(false) then
      (Response(200, Outcome(true, "Coupon deactivated.")),
       s.(coupons := s.coupons[first.value := s.coupons[first.value].(available := Some(false))]))
    else (Response(404, Outcome(false, "Coupon not found or already inactive.")), s)
  }

  /** GET /admin-stats once the admin is admitted. */
  function AdminStats(s: State): (r: Response)
    ensures r.body.Stats?
    ensures r.body.availableRooms + r.body.unavailableRooms == r.body.totalRooms
    ensures r.body.totalRooms == |s.apartments|
    ensures r.body.totalUsers + r.body.totalMembers <= |s.users|
  {
    RoomsPartition(s.apartments);
    RoleCountsBounded(s.users, UserRole, Member);
    Response(200, Stats(|s.apartments|, AvailableRooms(s.apartments), UnavailableRooms(s.apartments),
                        UsersWithRole(s.users, UserRole), UsersWithRole(s.users, Member)))
  }

  // ---------------------------------------------------------------------
  // Routes and the request loop

  /** The requests of the core; `header` is the authorization header of a protected route. */
  datatype Request =
    | PostUser(email: string, role: string)
    | PostAgreement(body: AgreementRequest)
    | PatchAgreementRequest(header: Option<string>, id: Id, action: string, userEmail: string)
    | PatchMemberRole(header: Option<string>, email: string, role: string)
    | PostCoupon(coupon: Coupon)
    | PutCouponAvailability(header: Option<string>, id: Id, available: Option<bool>)
    | PutCouponDeactivate(code: string)
    | GetAdminStats(header: Option<string>)

  /** A request to an admin route: the middleware chain first, then the handler. */
  function AdminOnly(s: State, header: Option<string>, verifyIdToken: string -> Option<string>,
                     handled: (Response, State)): (Response, State)
  {
    var gate := Admit(s.users, header, verifyIdToken, VerifyAdmin);
    if gate.Reject? then (Refusal(gate), s) else handled
  }

  /** One request: a refused request writes nothing, and no request deletes a user or an apartment. */
  function Dispatch(s: State, verifyIdToken: string -> Option<string>, req: Request): (result: (Response, State))
    ensures result.0.code != 200 ==> result.1 == s
    ensures s.users.Keys <= result.1.users.Keys
    ensures result.1.apartments.Keys == s.apartments.Keys
    ensures s.nextId <= result.1.nextId
  {
    match req
    case PostUser(email, role) => RegisterUser(s, email, role)
    case PostAgreement(body) => SubmitAgreement(s, body)
    case PatchAgreementRequest(header, id, action, userEmail) =>
      AdminOnly(s, header, verifyIdToken, DecideAgreement(s, id, action, userEmail))
    case PatchMemberRole(header, email, role) =>
      AdminOnly(s, header, verifyIdToken, ChangeRole(s, email, role))
    case PostCoupon(coupon) => AddCoupon(s, coupon)
    case PutCouponAvailability(header, id, available) =>
      AdminOnly(s, header, verifyIdToken, SetCouponAvailability(s, id, available))
    case PutCouponDeactivate(code) => DeactivateCoupon(s, code)
    case GetAdminStats(header) => AdminOnly(s, header, verifyIdToken, (AdminStats(s), s))
  }

  /** The state after handling `reqs` one after the other; users and apartments are never deleted. */
  function Run(s: State, verifyIdToken: string -> Option<string>, reqs: seq<Request>): (r: State)
    ensures s.users.Keys <= r.users.Keys
    ensures r.apartments.Keys == s.apartments.Keys
    ensures s.nextId <= r.nextId
    decreases |reqs|
  {
    if reqs == [] then s else Run(Dispatch(s, verifyIdToken, reqs[0]).1, verifyIdToken, reqs[1..])
  }
}
