/** The digital-ID store: documents of the `digital-ids` collection, the two
    lookups by user, and `addDigitalId`, an upsert keyed on the user. */
module DigitalIds {
  import opened Prelude
  import opened ObjectIds

  const DefaultUserId: string := "1"

  datatype IdStatus = Active | Expired | Revoked

  /** `new Date(text)`: the moment a date string denotes. Date parsing and
      ISO printing are opaque here; the value remembers its source text. */
  datatype Moment = DateOf(text: string)

  /** A stored document. */
  datatype DigitalId = DigitalId(
    oid: Oid,
    userId: string,
    fullName: string,
    documentNumber: string,
    documentType: string,
    nationality: string,
    issuedAt: Moment,
    validUntil: Moment,
    itinerary: Option<string>,
    status: IdStatus)

  /** `DigitalIdSerializable`: the id printed into `mongoId` (`_id`) and
      `id`; the dates stand for their ISO text. */
  datatype DigitalIdView = DigitalIdView(
    mongoId: string,
    id: string,
    userId: string,
    fullName: string,
    documentNumber: string,
    documentType: string,
    nationality: string,
    issuedAt: Moment,
    validUntil: Moment,
    itinerary: Option<string>,
    status: IdStatus)

  /** `serializeDigitalId`. */
  function SerializeDigitalId(d: DigitalId): (v: DigitalIdView)
    ensures v.mongoId == v.id
    ensures ParseObjectId(v.id) == Ok(d.oid)
    ensures v.userId == d.userId && v.status == d.status
  {
    IdStringRoundTrip(d.oid);
    DigitalIdView(IdString(d.oid), IdString(d.oid), d.userId, d.fullName, d.documentNumber,
                  d.documentType, d.nationality, d.issuedAt, d.validUntil, d.itinerary, d.status)
  }

  /** The position of the first document of user `u` (`findOne({ userId })`). */
  function FirstOfUser(docs: seq<DigitalId>, u: string): (r: Option<nat>)
    ensures r.Some? ==> r.value < |docs| && docs[r.value].userId == u
    ensures r.Some? ==> forall k :: 0 <= k < r.value ==> docs[k].userId != u
    ensures r.None? ==> forall k :: 0 <= k < |docs| ==> docs[k].userId != u
  {
    if docs == [] then None
    else if docs[0].userId == u then Some(0)
    else match FirstOfUser(docs[1..], u)
      case None => None
      case Some(k) => Some(k + 1)
  }

  /** `getDigitalIdForUser(userId)`. */
  function GetDigitalIdForUser(docs: seq<DigitalId>, userId: string): (r: Option<DigitalIdView>)
    ensures r.Some? <==> exists k :: 0 <= k < |docs| && docs[k].userId == userId
    ensures r.Some? ==> r.value.userId == userId
    ensures r.Some? ==>
              (exists k :: 0 <= k < |docs| && docs[k].userId == userId
                 && r.value == SerializeDigitalId(docs[k])
                 && (forall j :: 0 <= j < k ==> docs[j].userId != userId))
  {
    match FirstOfUser(docs, userId)
    case None => None
    case Some(k) => Some(SerializeDigitalId(docs[k]))
  }

  /** `getDigitalId(userId = '1')`: the same lookup; only the default differs. */
  function GetDigitalId(docs: seq<DigitalId>, userId: Option<string>): (r: Option<DigitalIdView>)
    ensures userId.Some? ==> r == GetDigitalIdForUser(docs, userId.value)
    ensures userId.None? ==> r == GetDigitalIdForUser(docs, DefaultUserId)
  {
    GetDigitalIdForUser(docs, ParamOrDefault(userId, DefaultUserId))
  }

  datatype NewIdData = NewIdData(
    userId: Option<string>,
    fullName: string,
    documentNumber: string,
    documentType: string,
    nationality: string,
    visitStartDate: string,
    visitEndDate: string,
    itinerary: Option<string>)

  /** The owner `addDigitalId` files the ID under (`idData.userId || '1'`). */
  function Owner(data: NewIdData): (u: string)
    ensures u != ""
    ensures data.userId.Some? && data.userId.value != "" ==> u == data.userId.value
    ensures !(data.userId.Some? && data.userId.value != "") ==> u == DefaultUserId
  {
    OrDefault(data.userId, DefaultUserId)
  }

  /** The document `$set` leaves behind, keeping the id `oid` it lands on. */
  function Filled(data: NewIdData, oid: Oid): (d: DigitalId)
    ensures d.oid == oid && d.userId == Owner(data) && d.status == Active
    ensures d.fullName == data.fullName && d.documentNumber == data.documentNumber
    ensures d.documentType == data.documentType && d.nationality == data.nationality
    ensures d.issuedAt == DateOf(data.visitStartDate) && d.validUntil == DateOf(data.visitEndDate)
    ensures d.itinerary == data.itinerary
  {
    DigitalId(oid, Owner(data), data.fullName, data.documentNumber, data.documentType,
              data.nationality, DateOf(data.visitStartDate), DateOf(data.visitEndDate),
              data.itinerary, Active)
  }

  /** The collection after `updateOne({ userId }, { $set }, { upsert: true })`:
      the user's first document is overwritten in place, or, when the user has
      none, a new one with the server's fresh id is appended. */
  function Upserted(docs: seq<DigitalId>, data: NewIdData, newOid: Oid): seq<DigitalId> {
    match FirstOfUser(docs, Owner(data))
    case Some(k) => docs[k := Filled(data, docs[k].oid)]
    case None => docs + [Filled(data, newOid)]
  }

  function CountOfUser(docs: seq<DigitalId>, u: string): nat {
    if docs == [] then 0
    else (if docs[0].userId == u then 1 else 0) + CountOfUser(docs[1..], u)
  }

  /** No user has two documents. */
  predicate OnePerUser(docs: seq<DigitalId>) {
    forall i, j :: 0 <= i < |docs| && 0 <= j < |docs| && i != j ==> docs[i].userId != docs[j].userId
  }

  lemma {:induction false} CountOfUserAppend(a: seq<DigitalId>, b: seq<DigitalId>, u: string)
    ensures CountOfUser(a + b, u) == CountOfUser(a, u) + CountOfUser(b, u)
  {
    if a == [] {
      assert a + b == b;
    } else {
      CountOfUserAppend(a[1..], b, u);
      assert (a + b)[0] == a[0] && (a + b)[1..] == a[1..] + b;
    }
  }

  lemma {:induction false} CountOfUserUpdate(docs: seq<DigitalId>, k: nat, d: DigitalId, u: string)
    requires k < |docs|
    ensures CountOfUser(docs[k := d], u)
         == CountOfUser(docs, u) - (if docs[k].userId == u then 1 else 0) + (if d.userId == u then 1 else 0)
  {
    if k == 0 {
      assert docs[k := d][1..] == docs[1..];
    } else {
      CountOfUserUpdate(docs[1..], k - 1, d, u);
      assert docs[k := d][1..] == docs[1..][k - 1 := d];
    }
  }

  lemma {:induction false} CountNoneOfUser(docs: seq<DigitalId>, u: string)
    requires forall k :: 0 <= k < |docs| ==> docs[k].userId != u
    ensures CountOfUser(docs, u) == 0
  {
    if docs != [] {
      CountNoneOfUser(docs[1..], u);
    }
  }

  lemma {:induction false} CountOneOfUser(docs: seq<DigitalId>, k: nat, u: string)
    requires OnePerUser(docs) && k < |docs| && docs[k].userId == u
    ensures CountOfUser(docs, u) == 1
  {
    assert docs == docs[..k] + [docs[k]] + docs[k + 1..];
    CountOfUserAppend(docs[..k] + [docs[k]], docs[k + 1..], u);
    CountOfUserAppend(docs[..k], [docs[k]], u);
    CountNoneOfUser(docs[..k], u);
    CountNoneOfUser(docs[k + 1..], u);
  }

  lemma {:induction false} FirstOfUserAt(docs: seq<DigitalId>, k: nat, u: string)
    requires k < |docs| && docs[k].userId == u
    requires forall j :: 0 <= j < k ==> docs[j].userId != u
    ensures FirstOfUser(docs, u) == Some(k)
  {
    if k > 0 {
      FirstOfUserAt(docs[1..], k - 1, u);
    }
  }

  /** The user already has a document at `k`: it is overwritten in place. */
  lemma UpsertOverwritesExisting(docs: seq<DigitalId>, data: NewIdData, newOid: Oid, k: nat)
    requires OnePerUser(docs) && FirstOfUser(docs, Owner(data)) == Some(k)
    ensures OnePerUser(Upserted(docs, data, newOid))
    ensures CountOfUser(Upserted(docs, data, newOid), Owner(data)) == 1
    ensures GetDigitalIdForUser(Upserted(docs, data, newOid), Owner(data))
         == Some(SerializeDigitalId(Filled(data, docs[k].oid)))
    ensures forall v :: v != Owner(data) ==>
              GetDigitalIdForUser(Upserted(docs, data, newOid), v) == GetDigitalIdForUser(docs, v)
  {
    var u := Owner(data);
    var after := docs[k := Filled(data, docs[k].oid)];
    assert Upserted(docs, data, newOid) == after;
    assert forall j :: 0 <= j < |docs| && j != k ==> after[j] == docs[j];
    FirstOfUserAt(after, k, u);
    CountOneOfUser(after, k, u);
    forall v | v != u ensures GetDigitalIdForUser(after, v) == GetDigitalIdForUser(docs, v) {
      var a := FirstOfUser(after, v);
      var b := FirstOfUser(docs, v);
      if a.Some? { assert a.value != k; }
      if b.Some? { assert b.value != k; }
    }
  }

  /** The user has no document: one is appended with the fresh id. */
  lemma UpsertAppendsNew(docs: seq<DigitalId>, data: NewIdData, newOid: Oid)
    requires OnePerUser(docs) && FirstOfUser(docs, Owner(data)).None?
    ensures OnePerUser(Upserted(docs, data, newOid))
    ensures CountOfUser(Upserted(docs, data, newOid), Owner(data)) == 1
    ensures GetDigitalIdForUser(Upserted(docs, data, newOid), Owner(data))
         == Some(SerializeDigitalId(Filled(data, newOid)))
    ensures forall v :: v != Owner(data) ==>
              GetDigitalIdForUser(Upserted(docs, data, newOid), v) == GetDigitalIdForUser(docs, v)
  {
    var u := Owner(data);
    var after := docs + [Filled(data, newOid)];
    assert Upserted(docs, data, newOid) == after;
    assert forall j :: 0 <= j < |docs| ==> after[j] == docs[j];
    FirstOfUserAt(after, |docs|, u);
    CountOneOfUser(after, |docs|, u);
    forall v | v != u ensures GetDigitalIdForUser(after, v) == GetDigitalIdForUser(docs, v) {
      var a := FirstOfUser(after, v);
      if a.Some? { assert a.value < |docs|; assert after[a.value] == docs[a.value]; }
    }
  }

  /** After the upsert the user's ID is found, carries exactly the new
      fields, is the only document of that user, and, when the user already
      had one, keeps that document's id: it is overwritten, not duplicated.
      Other users' lookups are untouched. */
  lemma UpsertOverwrites(docs: seq<DigitalId>, data: NewIdData, newOid: Oid)
    requires OnePerUser(docs)
    ensures OnePerUser(Upserted(docs, data, newOid))
    ensures CountOfUser(Upserted(docs, data, newOid), Owner(data)) == 1
    ensures GetDigitalIdForUser(Upserted(docs, data, newOid), Owner(data))
         == Some(SerializeDigitalId(Filled(data,
              match FirstOfUser(docs, Owner(data))
              case Some(k) => docs[k].oid
              case None => newOid)))
    ensures forall v :: v != Owner(data) ==>
              GetDigitalIdForUser(Upserted(docs, data, newOid), v) == GetDigitalIdForUser(docs, v)
  {
    match FirstOfUser(docs, Owner(data))
    case Some(k) => UpsertOverwritesExisting(docs, data, newOid, k);
    case None => UpsertAppendsNew(docs, data, newOid);
  }

  class DigitalIdStore {
    var docs: seq<DigitalId>

    ghost predicate Valid()
      reads this
    {
      OnePerUser(docs)
    }

    constructor ()
      ensures Valid() && docs == []
    {
      docs := [];
    }

    /** `addDigitalId`: upsert the user's ID, then read it back. The read
        always finds it, so the source's "failed to create" error cannot
        arise. `newOid` is the id the server gives an upserted document. */
    method AddDigitalId(data: NewIdData, newOid: Oid) returns (r: DigitalIdView)
      requires Valid()
      modifies this
      ensures Valid()
      ensures docs == Upserted(old(docs), data, newOid)
      ensures GetDigitalIdForUser(docs, Owner(data)) == Some(r)
      ensures r.userId == Owner(data) && r.status == Active
      ensures r.fullName == data.fullName && r.documentNumber == data.documentNumber
      ensures r.documentType == data.documentType && r.nationality == data.nationality
      ensures r.issuedAt == DateOf(data.visitStartDate) && r.validUntil == DateOf(data.visitEndDate)
      ensures r.itinerary == data.itinerary
      ensures CountOfUser(docs, Owner(data)) == 1
      ensures old(GetDigitalIdForUser(docs, Owner(data))).Some? ==>
                r.id == old(GetDigitalIdForUser(docs, Owner(data))).value.id
    {
      var u := Owner(data);
      UpsertOverwrites(docs, data, newOid);
      docs := Upserted(docs, data, newOid);
      var found := GetDigitalIdForUser(docs, u);
      r := found.value;
    }
  }
}
