/**
 * The document store the handlers talk to, reduced to the four collections
 * of the core and the two store calls whose results the handlers branch on:
 * `updateOne` (its `modifiedCount`) and the first document a filter matches.
 */
module Store {
  import opened Wrappers

  /** A document identifier; the store hands them out in increasing order. */
  type Id = nat

  const Pending := "pending"
  const Checked := "checked"
  const Available := "available"
  const Unavailable := "unavailable"
  const Admin := "admin"
  const Member := "member"
  const UserRole := "user"

  /** A document of `users`; the collection is keyed by email. */
  datatype User = User(role: string)

  /** The triple that identifies an apartment. */
  datatype ApartmentKey = ApartmentKey(apartmentNo: int, blockName: string, floor: int)

  /** A document of `agreements`: the requester, the apartment, the status and the role snapshot. */
  datatype Agreement = Agreement(email: string, apartment: ApartmentKey, status: string, role: string)

  /** A document of `apartments`. */
  datatype Apartment = Apartment(rent: int, status: string)

  /** A document of `coupons`; either field may be missing from the stored document. */
  datatype Coupon = Coupon(code: Option<string>, available: Option<bool>)

  /** A collection after an `updateOne`, with the count the store reports. */
  datatype Updated<K, V> = Updated(table: map<K, V>, modifiedCount: nat)

  /**
   * `updateOne` on the document stored under `key`, applying the `$set`
   * `assign`. A document counts as modified only when it exists and the
   * `$set` changes one of its values; setting a value already stored
   * leaves the count at 0.
   */
  function UpdateOne<K, V(==)>(table: map<K, V>, key: K, assign: V -> V): (r: Updated<K, V>)
    ensures r.modifiedCount <= 1
    ensures r.modifiedCount == 1 <==> key in table && assign(table[key]) != table[key]
    ensures r.modifiedCount == 0 ==> r.table == table
    ensures r.table == if key in table then table[key := assign(table[key])] else table
    ensures r.table.Keys == table.Keys
    ensures key in table ==> r.table[key] == assign(table[key])
    ensures forall k :: k in table && k != key ==> r.table[k] == table[k]
  {
    if key in table && assign(table[key]) != table[key] then
      Updated(table[key := assign(table[key])], 1)
    else
      Updated(table, 0)
  }

  /** Every finite non-empty set of identifiers has a least element. */
  lemma {:induction false} LeastIdExists(ids: set<Id>)
    requires ids != {}
    ensures exists least :: least in ids && forall j :: j in ids ==> least <= j
  {
    var x :| x in ids;
    var rest := ids - {x};
    if rest == {} {
      forall j | j in ids
        ensures x <= j
      {
        assert j !in rest;
      }
    } else {
      LeastIdExists(rest);
      var m :| m in rest && forall j :: j in rest ==> m <= j;
      var least := if x < m then x else m;
      forall j | j in ids
        ensures least <= j
      {
        if j != x { assert j in rest; }
      }
      assert least in ids;
    }
  }

  /**
   * The coupon an `updateOne({ couponCode: code })` selects: the first
   * matching document in the collection's natural order, which is the order
   * of insertion and therefore of identifiers.
   */
  function FirstWithCode(coupons: map<Id, Coupon>, code: Option<string>): (r: Option<Id>)
    ensures r.None? <==> forall id :: id in coupons ==> coupons[id].code != code
    ensures r.Some? ==> r.value in coupons && coupons[r.value].code == code
    ensures r.Some? ==> forall id :: id in coupons && coupons[id].code == code ==> r.value <= id
  {
    var matching := set id | id in coupons && coupons[id].code == code;
    assert forall id :: id in coupons && coupons[id].code == code ==> id in matching;
    if matching == {} then None
    else
      LeastIdExists(matching);
      var least :| least in matching && forall j :: j in matching ==> least <= j;
      Some(least)
  }

  /** `countDocuments({ status: "available" })`. */
  function AvailableRooms(apartments: map<ApartmentKey, Apartment>): nat
  {
    |set k | k in apartments && apartments[k].status == Available|
  }

  /** `countDocuments({ status: { $ne: "available" } })`. */
  function UnavailableRooms(apartments: map<ApartmentKey, Apartment>): nat
  {
    |set k | k in apartments && apartments[k].status != Available|
  }

  /** `countDocuments({ role })` on the users collection. */
  function UsersWithRole(users: map<string, User>, role: string): nat
  {
    |set e | e in users && users[e].role == role|
  }

  /** The two status filters split the apartments: together they count every room once. */
  lemma RoomsPartition(apartments: map<ApartmentKey, Apartment>)
    ensures AvailableRooms(apartments) + UnavailableRooms(apartments) == |apartments|
  {
    var a := set k | k in apartments && apartments[k].status == Available;
    var u := set k | k in apartments && apartments[k].status != Available;
    assert a + u == apartments.Keys;
    assert a * u == {};
    assert |apartments.Keys| == |apartments|;
  }

  /** Users and members are disjoint groups of the users collection. */
  lemma RoleCountsBounded(users: map<string, User>, r1: string, r2: string)
    requires r1 != r2
    ensures UsersWithRole(users, r1) + UsersWithRole(users, r2) <= |users|
  {
    var a := set e | e in users && users[e].role == r1;
    var b := set e | e in users && users[e].role == r2;
    assert a * b == {};
    assert a + b <= users.Keys;
    SubsetCardinality(a + b, users.Keys);
    assert |users.Keys| == |users|;
  }

  lemma {:induction false} SubsetCardinality<T>(small: set<T>, big: set<T>)
    requires small <= big
    ensures |small| <= |big|
  {
    if small != {} {
      var x :| x in small;
      SubsetCardinality(small - {x}, big - {x});
    }
  }
}
