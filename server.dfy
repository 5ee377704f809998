/**
 * The server: one object holding the four collections, and one method per
 * route of the core that performs the route's store calls in the source's
 * order (`findOne`, then `insertOne` or `updateOne`, branching on
 * `modifiedCount`). Each method is proved to produce the response and the
 * collections that module Handlers specifies for that request.
 */
module Server {
  import opened Wrappers
  import opened Store
  import opened Http
  import opened Guards
  import Handlers

  class Db {
    var users: map<string, User>
    var agreements: map<Id, Agreement>
    var apartments: map<ApartmentKey, Apartment>
    var coupons: map<Id, Coupon>
    var nextId: Id

    /** The collections as a value. */
    function Snapshot(): Handlers.State
      reads this
    {
      Handlers.State(users, agreements, apartments, coupons, nextId)
    }

    constructor (s: Handlers.State)
      ensures Snapshot() == s
    {
      users, agreements, apartments, coupons, nextId := s.users, s.agreements, s.apartments, s.coupons, s.nextId;
    }

    /** `agreementsCollection.findOne({ email })`. */
    method FindAgreementByEmail(email: string) returns (found: Option<Agreement>)
      ensures found.None? <==> !Handlers.HasAgreement(agreements, email)
      ensures found.Some? ==> found.value in agreements.Values && found.value.email == email
    {
      if exists id :: id in agreements && agreements[id].email == email {
        var id :| id in agreements && agreements[id].email == email;
        found := Some(agreements[id]);
      } else {
        found := None;
      }
    }

    /** `agreementsCollection.findOne({ _id })`. */
    method FindAgreement(id: Id) returns (found: Option<Agreement>)
      ensures found.Some? <==> id in agreements
      ensures found.Some? ==> found.value == agreements[id]
    {
      found := if id in agreements then Some(agreements[id]) else None;
    }

    /** `couponsCollection.findOne({ couponCode })`. */
    method FindCouponByCode(code: Option<string>) returns (found: Option<Coupon>)
      ensures found.None? <==> !Handlers.HasCouponCode(coupons, code)
      ensures found.Some? ==> found.value in coupons.Values && found.value.code == code
    {
      var first := FirstWithCode(coupons, code);
      found := if first.Some? then Some(coupons[first.value]) else None;
    }

    /** POST /users */
    method PostUser(email: string, role: string) returns (r: Response)
      modifies this
      ensures (r, Snapshot()) == Handlers.RegisterUser(old(Snapshot()), email, role)
    {
      if email == "" {
        return Response(400, Message("Email is required"));
      }
      if email in users {
        return Response(200, Outcome(true, "User already Exist"));
      }
      var stored := if role == "" then UserRole else role;
      // updateOne({ email }, { $set: userData }, { upsert: true }) on an email no user has
      users := users[email := User(stored)];
      r := Response(200, Flag(true));
    }

    /** POST /agreements */
    method PostAgreement(body: Handlers.AgreementRequest) returns (r: Response)
      modifies this
      ensures (r, Snapshot()) == Handlers.SubmitAgreement(old(Snapshot()), body)
    {
      if body.email == "" {
        return Response(400, Message("Missing email."));
      }
      var existing := FindAgreementByEmail(body.email);
      if existing.Some? {
        return Response(400, Message("You have already made an agreement."));
      }
      var agreement := Agreement(body.email, body.apartment, Pending, UserRole);
      agreements := agreements[nextId := agreement];
      r := Response(200, Inserted(nextId));
      nextId := nextId + 1;
    }

    /** PATCH /agreements/requests/:id behind `verifyFBToken` and `verifyAdmin`. */
    method PatchAgreementRequest(header: Option<string>, verifyIdToken: string -> Option<string>,
                                 id: Id, action: string, userEmail: string) returns (r: Response)
      modifies this
      ensures (r, Snapshot()) == Handlers.Dispatch(old(Snapshot()), verifyIdToken,
                                   Handlers.PatchAgreementRequest(header, id, action, userEmail))
    {
      var gate := Admit(users, header, verifyIdToken, VerifyAdmin);
      if gate.Reject? {
        return Refusal(gate);
      }
      var status := UpdateOne(agreements, id, (a: Agreement) => a.(status := Checked));
      agreements := status.table;
      if status.modifiedCount != 1 {
        return Response(400, Message("Failed to update agreement"));
      }
      if action == "accept" && userEmail != "" {
        var promotion := UpdateOne(users, userEmail, (u: User) => u.(role := Member));
        users := promotion.table;
      }
      var agreement := FindAgreement(id);
      if agreement.Some? {
        var marking := UpdateOne(apartments, agreement.value.apartment,
                                 (a: Apartment) => a.(status := Unavailable));
        apartments := marking.table;
      }
      r := Response(200, Flag(true));
    }

    /** PATCH /members/:email/role behind `verifyFBToken` and `verifyAdmin`. */
    method PatchMemberRole(header: Option<string>, verifyIdToken: string -> Option<string>,
                           email: string, role: string) returns (r: Response)
      modifies this
      ensures (r, Snapshot()) == Handlers.Dispatch(old(Snapshot()), verifyIdToken,
                                   Handlers.PatchMemberRole(header, email, role))
    {
      var gate := Admit(users, header, verifyIdToken, VerifyAdmin);
      if gate.Reject? {
        return Refusal(gate);
      }
      var result := UpdateOne(users, email, (u: User) => u.(role := role));
      users := result.table;
      r := Response(200, Flag(result.modifiedCount == 1));
    }

    /** POST /coupons */
    method PostCoupon(coupon: Coupon) returns (r: Response)
      modifies this
      ensures (r, Snapshot()) == Handlers.AddCoupon(old(Snapshot()), coupon)
    {
      var existing := FindCouponByCode(coupon.code);
      if existing.Some? {
        return Response(400, Message("Coupon code already exists."));
      }
      coupons := coupons[nextId := coupon];
      r := Response(200, Inserted(nextId));
      nextId := nextId + 1;
    }

    /** PUT /coupons/:id/availability behind `verifyFBToken` and `verifyAdmin`. */
    method PutCouponAvailability(header: Option<string>, verifyIdToken: string -> Option<string>,
                                 id: Id, available: Option<bool>) returns (r: Response)
      modifies this
      ensures (r, Snapshot()) == Handlers.Dispatch(old(Snapshot()), verifyIdToken,
                                   Handlers.PutCouponAvailability(header, id, available))
    {
      var gate := Admit(users, header, verifyIdToken, VerifyAdmin);
      if gate.Reject? {
        return Refusal(gate);
      }
      var result := UpdateOne(coupons, id, (c: Coupon) => c.(available := available));
      coupons := result.table;
      if result.modifiedCount == 1 {
        r := Response(200, Outcome(true, "Availability updated"));
      } else {
        r := Response(404, Outcome(false, "Coupon not found"));
      }
    }

    /** PUT /coupons/:code/deactivate */
    method PutCouponDeactivate(code: string) returns (r: Response)
      modifies this
      ensures (r, Snapshot()) == Handlers.DeactivateCoupon(old(Snapshot()), code)
    {
      var first := FirstWithCode(coupons, Some(code));
      var modifiedCount := 0;
      if first.Some? {
        var result := UpdateOne(coupons, first.value, (c: Coupon) => c.(available := Some(false)));
        coupons := result.table;
        modifiedCount := result.modifiedCount;
      }
      if modifiedCount > 0 {
        r := Response(200, Outcome(true, "Coupon deactivated."));
      } else {
        r := Response(404, Outcome(false, "Coupon not found or already inactive."));
      }
    }

    /** GET /admin-stats behind `verifyFBToken` and `verifyAdmin`; it only reads. */
    method GetAdminStats(header: Option<string>, verifyIdToken: string -> Option<string>) returns (r: Response)
      ensures r == Handlers.Dispatch(Snapshot(), verifyIdToken, Handlers.GetAdminStats(header)).0
      ensures r.code == 200 ==>
                && r.body.Stats?
                && r.body.availableRooms + r.body.unavailableRooms == r.body.totalRooms
                && r.body.totalRooms == |apartments|
    {
      var gate := Admit(users, header, verifyIdToken, VerifyAdmin);
      if gate.Reject? {
        return Refusal(gate);
      }
      var totalRooms := |apartments|;
      var availableRooms := AvailableRooms(apartments);
      var unavailableRooms := UnavailableRooms(apartments);
      var totalUsers := UsersWithRole(users, UserRole);
      var totalMembers := UsersWithRole(users, Member);
      RoomsPartition(apartments);
      r := Response(200, Stats(totalRooms, availableRooms, unavailableRooms, totalUsers, totalMembers));
    }
  }
}
