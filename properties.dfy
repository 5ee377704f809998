/** What the handlers promise, alone and over any sequence of requests. */
module HandlerProperties {
  import opened Wrappers
  import opened Store
  import opened Http
  import opened Guards
  import opened Handlers
  import Auth

  // ---------------------------------------------------------------------
  // Submitting an agreement

  /** A submission for an email that already has an agreement, in any status, is refused and inserts nothing. */
  lemma SubmitRejectsSecondAgreement(s: State, body: AgreementRequest)
    requires body.email != ""
    requires HasAgreement(s.agreements, body.email)
    ensures SubmitAgreement(s, body) == (Response(400, Message("You have already made an agreement.")), s)
  {
  }

  /** A first submission inserts exactly one pending agreement, the only one for that email. */
  lemma SubmitInsertsOnePending(s: State, body: AgreementRequest)
    requires Valid(s)
    requires body.email != "" && !HasAgreement(s.agreements, body.email)
    ensures var (r, s') := SubmitAgreement(s, body);
            && r == Response(200, Inserted(s.nextId))
            && s.nextId !in s.agreements
            && s'.agreements.Keys == s.agreements.Keys + {s.nextId}
            && s'.agreements[s.nextId] == Agreement(body.email, body.apartment, Pending, UserRole)
            && (forall id :: id in s.agreements ==> s'.agreements[id] == s.agreements[id])
            && (forall id :: id in s'.agreements && s'.agreements[id].email == body.email ==> id == s.nextId)
            && s'.users == s.users && s'.apartments == s.apartments && s'.coupons == s.coupons
  {
    assert s.nextId !in s.agreements;
  }

  // ---------------------------------------------------------------------
  // Deciding an agreement

  /** The status update is the gate: success exactly when it modifies the agreement; otherwise nothing is written. */
  lemma DecideGate(s: State, id: Id, action: string, userEmail: string)
    ensures var (r, s') := DecideAgreement(s, id, action, userEmail);
            && (r.code == 200 <==> id in s.agreements && s.agreements[id].status != Checked)
            && (r.code != 200 ==> r == Response(400, Message("Failed to update agreement")) && s' == s)
            && (r.code == 200 ==> s'.agreements == s.agreements[id := s.agreements[id].(status := Checked)])
  {
  }

  /**
   * After a successful decision the users change only by the promotion of
   * `userEmail` on "accept": no other user record is touched, and on any
   * other action the users are left as they were.
   */
  lemma DecidePromotesOnlyUserEmail(s: State, id: Id, action: string, userEmail: string)
    requires Decidable(s, id)
    ensures var s' := DecideAgreement(s, id, action, userEmail).1;
            && s'.users.Keys == s.users.Keys
            && (forall e :: e in s.users && e != userEmail ==> s'.users[e] == s.users[e])
            && (action != "accept" || userEmail == "" ==> s'.users == s.users)
            && (action == "accept" && userEmail in s.users && userEmail != "" ==>
                  s'.users[userEmail].role == Member)
  {
  }

  /**
   * After a successful decision, accept or reject, the agreement's apartment
   * is unavailable and no other apartment changes.
   */
  lemma DecideMarksApartmentUnavailable(s: State, id: Id, action: string, userEmail: string)
    requires Decidable(s, id)
    ensures var s' := DecideAgreement(s, id, action, userEmail).1;
            var key := s.agreements[id].apartment;
            && s'.apartments.Keys == s.apartments.Keys
            && (key in s.apartments ==> s'.apartments[key] == s.apartments[key].(status := Unavailable))
            && (forall k :: k in s.apartments && k != key ==> s'.apartments[k] == s.apartments[k])
  {
  }

  /** A second decision on the same agreement, whatever its action and user, is refused and writes nothing. */
  lemma DecideTwice(s: State, id: Id, action: string, userEmail: string, action2: string, userEmail2: string)
    requires DecideAgreement(s, id, action, userEmail).0.code == 200
    ensures var s1 := DecideAgreement(s, id, action, userEmail).1;
            DecideAgreement(s1, id, action2, userEmail2) ==
              (Response(400, Message("Failed to update agreement")), s1)
  {
  }

  // ---------------------------------------------------------------------
  // Users, roles and coupons

  /** Registration stores a new user once, with the supplied role or "user" when none is supplied. */
  lemma RegisterUserOnce(s: State, email: string, role: string)
    ensures var (r, s') := RegisterUser(s, email, role);
            && (email == "" ==> r.code == 400 && s' == s)
            && (email != "" && email in s.users ==> r.code == 200 && s' == s)
            && (email != "" && email !in s.users ==>
                  && s'.users.Keys == s.users.Keys + {email}
                  && s'.users[email].role == (if role == "" then "user" else role)
                  && (forall e :: e in s.users ==> s'.users[e] == s.users[e])
                  && s'.agreements == s.agreements)
  {
  }

  /**
   * The role change always answers 200, with success exactly when one
   * user's role changed; the named user gets the role and nothing else
   * changes.
   */
  lemma ChangeRoleReportsChange(s: State, email: string, role: string)
    ensures var (r, s') := ChangeRole(s, email, role);
            && r == Response(200, Flag(email in s.users && s.users[email].role != role))
            && s' == (if email in s.users then s.(users := s.users[email := User(role)]) else s)
            && (r.body.success <==> exists e :: e in s.users && s'.users[e] != s.users[e])
  {
    var s' := ChangeRole(s, email, role).1;
    if email in s.users && s.users[email].role != role {
      assert s'.users[email] != s.users[email];
    }
  }

  /** A coupon whose code is taken, a missing code included, is refused and nothing is inserted. */
  lemma AddCouponRejectsDuplicate(s: State, coupon: Coupon, id: Id)
    requires id in s.coupons && s.coupons[id].code == coupon.code
    ensures AddCoupon(s, coupon) == (Response(400, Message("Coupon code already exists.")), s)
  {
  }

  /** A coupon with a new code is inserted under a fresh id, and nothing else changes. */
  lemma AddCouponInsertsOne(s: State, coupon: Coupon)
    requires Valid(s)
    requires !HasCouponCode(s.coupons, coupon.code)
    ensures var (r, s') := AddCoupon(s, coupon);
            && r == Response(200, Inserted(s.nextId))
            && s.nextId !in s.coupons
            && s' == s.(coupons := s.coupons[s.nextId := coupon], nextId := s.nextId + 1)
  {
    assert s.nextId !in s.coupons;
  }

  /** Setting availability succeeds exactly when the coupon exists and the flag changes; only that coupon changes. */
  lemma AvailabilityReportsChange(s: State, id: Id, available: Option<bool>)
    ensures var (r, s') := SetCouponAvailability(s, id, available);
            && (r.code == 200 <==> id in s.coupons && s.coupons[id].available != available)
            && (r.code == 200 ==>
                  && r == Response(200, Outcome(true, "Availability updated"))
                  && s' == s.(coupons := s.coupons[id := s.coupons[id].(available := available)]))
            && (r.code != 200 ==> r == Response(404, Outcome(false, "Coupon not found")) && s' == s)
  {
  }

  /**
   * With unique codes, deactivation succeeds exactly when the coupon with
   * the code is not already off; then only that coupon changes, to
   * `available: false`.
   */
  lemma DeactivateReportsChange(s: State, code: string)
    requires CouponCodesUnique(s.coupons)
    ensures var (r, s') := DeactivateCoupon(s, code);
            && (r.code == 200 <==>
                  exists id :: id in s.coupons && s.coupons[id].code == Some(code) &&
                               s.coupons[id].available != Some(false))
            && (forall id :: id in s.coupons && s.coupons[id].code == Some(code) && r.code == 200 ==>
                  s' == s.(coupons := s.coupons[id := s.coupons[id].(available := Some(false))]))
            && (r.code != 200 ==>
                  r == Response(404, Outcome(false, "Coupon not found or already inactive.")) && s' == s)
  {
    var first := FirstWithCode(s.coupons, Some(code));
    if first.Some? {
      forall id | id in s.coupons && s.coupons[id].code == Some(code)
        ensures id == first.value
      {
      }
    }
  }

  /** Deactivating a coupon a second time yields 404 and changes nothing. */
  lemma DeactivateTwice(s: State, code: string)
    requires DeactivateCoupon(s, code).0.code == 200
    ensures var s1 := DeactivateCoupon(s, code).1;
            DeactivateCoupon(s1, code) == (Response(404, Outcome(false, "Coupon not found or already inactive.")), s1)
  {
    var first := FirstWithCode(s.coupons, Some(code)).value;
    var s1 := DeactivateCoupon(s, code).1;
    assert s1.coupons[first].code == Some(code);
    var again := FirstWithCode(s1.coupons, Some(code));
    assert again == Some(first) by {
      assert again.Some?;
      assert again.value <= first;
      assert s.coupons[again.value].code == Some(code);
      assert first <= again.value;
    }
  }

  // ---------------------------------------------------------------------
  // Protected routes

  predicate Protected(req: Request)
  {
    req.PatchAgreementRequest? || req.PatchMemberRole? || req.PutCouponAvailability? || req.GetAdminStats?
  }

  /** A protected request without a bearer token gets 401 and writes nothing, whatever the identity provider would say. */
  lemma ProtectedWithoutTokenRefused(s: State, verifyIdToken: string -> Option<string>, req: Request)
    requires Protected(req)
    requires Auth.BearerToken(req.header).None?
    ensures Dispatch(s, verifyIdToken, req) == (Response(401, Message("unauthorized access")), s)
  {
  }

  /** A protected request from a principal whose stored role is not exactly "admin" is refused and writes nothing. */
  lemma ProtectedNeedsAdmin(s: State, verifyIdToken: string -> Option<string>, req: Request, email: string)
    requires Protected(req)
    requires Auth.VerifyFBToken(req.header, verifyIdToken) == Proceed(email)
    requires email !in s.users || s.users[email].role != Admin
    ensures Dispatch(s, verifyIdToken, req) == (Response(403, Message("forbidden access 1")), s)
  {
  }

  // ---------------------------------------------------------------------
  // The invariant over any sequence of requests

  /** A first submission keeps one agreement per email. */
  lemma SubmitPreservesValid(s: State, body: AgreementRequest)
    requires Valid(s)
    ensures var s' := SubmitAgreement(s, body).1;
            Valid(s') && Advances(s.agreements, s'.agreements)
  {
    if body.email != "" && !HasAgreement(s.agreements, body.email) {
      SubmitInsertsOnePending(s, body);
    }
  }

  /** A decision moves one pending agreement to checked and touches no other agreement. */
  lemma DecidePreservesValid(s: State, id: Id, action: string, userEmail: string)
    requires Valid(s)
    ensures var s' := DecideAgreement(s, id, action, userEmail).1;
            Valid(s') && Advances(s.agreements, s'.agreements)
  {
  }

  /** A coupon is only added under a code no stored coupon has. */
  lemma AddCouponPreservesValid(s: State, coupon: Coupon)
    requires Valid(s)
    ensures Valid(AddCoupon(s, coupon).1)
  {
    var s' := AddCoupon(s, coupon).1;
    if s' != s {
      assert s.nextId !in s.coupons;
    }
  }

  /** Every request keeps the store invariant and moves agreements forward only; users are never deleted. */
  lemma DispatchPreservesValid(s: State, verifyIdToken: string -> Option<string>, req: Request)
    requires Valid(s)
    ensures var s' := Dispatch(s, verifyIdToken, req).1;
            Valid(s') && Advances(s.agreements, s'.agreements) && s.users.Keys <= s'.users.Keys
  {
    match req
    case PostAgreement(body) => SubmitPreservesValid(s, body);
    case PatchAgreementRequest(_, id, action, userEmail) => DecidePreservesValid(s, id, action, userEmail);
    case PostCoupon(coupon) => AddCouponPreservesValid(s, coupon);
    case _ =>
  }

  lemma AdvancesTransitive(a: map<Id, Agreement>, b: map<Id, Agreement>, c: map<Id, Agreement>)
    requires Advances(a, b) && Advances(b, c)
    ensures Advances(a, c)
  {
  }

  /** Over any sequence of requests the invariant holds and every agreement only ever moves from pending to checked. */
  lemma {:induction false} RunPreservesValid(s: State, verifyIdToken: string -> Option<string>, reqs: seq<Request>)
    requires Valid(s)
    ensures var s' := Run(s, verifyIdToken, reqs);
            Valid(s') && Advances(s.agreements, s'.agreements) && s.users.Keys <= s'.users.Keys
    decreases |reqs|
  {
    if reqs != [] {
      var s1 := Dispatch(s, verifyIdToken, reqs[0]).1;
      DispatchPreservesValid(s, verifyIdToken, reqs[0]);
      RunPreservesValid(s1, verifyIdToken, reqs[1..]);
      AdvancesTransitive(s.agreements, s1.agreements, Run(s1, verifyIdToken, reqs[1..]).agreements);
    } else {
      assert Advances(s.agreements, s.agreements);
    }
  }

  // ---------------------------------------------------------------------
  // A worked scenario

  /**
   * "a@x.com" asks for apartment 12 of block B on floor 3 and an admin
   * accepts: the agreement is checked, the user is a member and the
   * apartment unavailable; accepting again is refused and changes nothing.
   */
  lemma AcceptScenario(s: State)
    requires Valid(s)
    requires s.agreements == map[]
    requires s.users == map["a@x.com" := User("user")]
    requires s.apartments == map[ApartmentKey(12, "B", 3) := Apartment(1000, Available)]
    ensures var body := AgreementRequest("a@x.com", ApartmentKey(12, "B", 3));
            var (r1, s1) := SubmitAgreement(s, body);
            var id := s.nextId;
            var (r2, s2) := DecideAgreement(s1, id, "accept", "a@x.com");
            && r1 == Response(200, Inserted(id))
            && s1.agreements[id].status == Pending
            && r2 == Response(200, Flag(true))
            && s2.agreements[id].status == Checked
            && s2.users["a@x.com"].role == Member
            && s2.apartments[ApartmentKey(12, "B", 3)].status == Unavailable
            && DecideAgreement(s2, id, "accept", "a@x.com") == (Response(400, Message("Failed to update agreement")), s2)
  {
  }
}
