/** The incident store: documents of the `incidents` collection, their
    serialized form, and the operations of the server module (list all, list
    one user's, add, change status, delete). The collection is an in-memory
    sequence of documents in insertion order. */
module Incidents {
  import opened Prelude
  import opened ObjectIds

  datatype Status = Reported | InProgress | Resolved

  function StatusName(s: Status): string {
    match s
    case Reported => "Reported"
    case InProgress => "In Progress"
    case Resolved => "Resolved"
  }

  /** A stored document. `createdAt` is the creation moment (a `Date`; its
      text form is opaque here). `severity` is whatever string the caller gave:
      the store casts it without checking. */
  datatype Incident = Incident(
    oid: Oid,
    kind: string,
    severity: string,
    description: string,
    createdAt: int,
    status: Status,
    location: string,
    image: Option<string>,
    userId: Option<string>,
    isSos: Option<bool>)

  /** `IncidentSerializable`: the document with its object id printed into
      both `mongoId` (`_id`) and `id`. The relative `timestamp` text is not
      modelled; `createdAt` stands for its ISO text. */
  datatype IncidentView = IncidentView(
    mongoId: string,
    id: string,
    kind: string,
    severity: string,
    description: string,
    createdAt: int,
    status: Status,
    location: string,
    image: Option<string>,
    userId: Option<string>,
    isSos: Option<bool>)

  function Serialize(d: Incident): (v: IncidentView)
    ensures v.mongoId == v.id == IdString(d.oid)
    ensures ParseObjectId(v.id) == Ok(d.oid)
  {
    IdStringRoundTrip(d.oid);
    IncidentView(IdString(d.oid), IdString(d.oid), d.kind, d.severity, d.description,
                 d.createdAt, d.status, d.location, d.image, d.userId, d.isSos)
  }

  function SerializeAll(ds: seq<Incident>): (vs: seq<IncidentView>)
    ensures |vs| == |ds|
    ensures forall k :: 0 <= k < |ds| ==> vs[k] == Serialize(ds[k])
  {
    if ds == [] then [] else [Serialize(ds[0])] + SerializeAll(ds[1..])
  }

  // ---------------------------------------------------------------------
  // Ordering: `.sort({ createdAt: -1 })`

  predicate NewestFirstOrder(ds: seq<Incident>) {
    forall i, j :: 0 <= i < j < |ds| ==> ds[i].createdAt >= ds[j].createdAt
  }

  /** Puts `d` in front of the first document that is not newer than it. */
  function InsertByDate(d: Incident, ds: seq<Incident>): seq<Incident> {
    if ds == [] then [d]
    else if ds[0].createdAt <= d.createdAt then [d] + ds
    else [ds[0]] + InsertByDate(d, ds[1..])
  }

  /** Newest first. Documents with equal `createdAt` keep their insertion
      order (the database leaves that order open; the model fixes one). */
  function NewestFirst(ds: seq<Incident>): seq<Incident> {
    if ds == [] then [] else InsertByDate(ds[0], NewestFirst(ds[1..]))
  }

  predicate NoNewerThan(ds: seq<Incident>, t: int) {
    forall k :: 0 <= k < |ds| ==> ds[k].createdAt <= t
  }

  lemma ConsKeepsOrder(d: Incident, ds: seq<Incident>)
    requires NewestFirstOrder(ds) && NoNewerThan(ds, d.createdAt)
    ensures NewestFirstOrder([d] + ds)
  {
    forall i, j | 0 <= i < j < |[d] + ds|
      ensures ([d] + ds)[i].createdAt >= ([d] + ds)[j].createdAt
    {
      if i > 0 {
        assert ([d] + ds)[i] == ds[i - 1] && ([d] + ds)[j] == ds[j - 1];
      } else {
        assert ([d] + ds)[j] == ds[j - 1];
      }
    }
  }

  lemma {:induction false} InsertByDateBounded(d: Incident, ds: seq<Incident>, t: int)
    requires NoNewerThan(ds, t) && d.createdAt <= t
    ensures NoNewerThan(InsertByDate(d, ds), t)
  {
    if ds != [] && ds[0].createdAt > d.createdAt {
      InsertByDateBounded(d, ds[1..], t);
      var tail := InsertByDate(d, ds[1..]);
      forall k | 0 <= k < |[ds[0]] + tail| ensures ([ds[0]] + tail)[k].createdAt <= t {
        if k > 0 { assert ([ds[0]] + tail)[k] == tail[k - 1]; }
      }
    } else if ds != [] {
      forall k | 0 <= k < |[d] + ds| ensures ([d] + ds)[k].createdAt <= t {
        if k > 0 { assert ([d] + ds)[k] == ds[k - 1]; }
      }
    }
  }

  lemma {:induction false} InsertByDateKeepsOrder(d: Incident, ds: seq<Incident>)
    requires NewestFirstOrder(ds)
    ensures NewestFirstOrder(InsertByDate(d, ds))
  {
    if ds == [] {
    } else if ds[0].createdAt <= d.createdAt {
      ConsKeepsOrder(d, ds);
    } else {
      var rest := ds[1..];
      assert NewestFirstOrder(rest) by {
        forall i, j | 0 <= i < j < |rest| ensures rest[i].createdAt >= rest[j].createdAt {
          assert rest[i] == ds[i + 1] && rest[j] == ds[j + 1];
        }
      }
      InsertByDateKeepsOrder(d, rest);
      assert NoNewerThan(rest, ds[0].createdAt) by {
        forall k | 0 <= k < |rest| ensures rest[k].createdAt <= ds[0].createdAt {
          assert rest[k] == ds[k + 1];
        }
      }
      InsertByDateBounded(d, rest, ds[0].createdAt);
      ConsKeepsOrder(ds[0], InsertByDate(d, rest));
    }
  }

  lemma {:induction false} InsertByDateAddsOne(d: Incident, ds: seq<Incident>)
    ensures multiset(InsertByDate(d, ds)) == multiset(ds) + multiset{d}
  {
    if ds != [] && ds[0].createdAt > d.createdAt {
      InsertByDateAddsOne(d, ds[1..]);
      assert ds == [ds[0]] + ds[1..];
    }
  }

  /** The list is newest first and holds exactly the documents it was given. */
  lemma {:induction false} NewestFirstIsSortedPermutation(ds: seq<Incident>)
    ensures NewestFirstOrder(NewestFirst(ds))
    ensures multiset(NewestFirst(ds)) == multiset(ds)
  {
    if ds != [] {
      NewestFirstIsSortedPermutation(ds[1..]);
      InsertByDateKeepsOrder(ds[0], NewestFirst(ds[1..]));
      InsertByDateAddsOne(ds[0], NewestFirst(ds[1..]));
      assert ds == [ds[0]] + ds[1..];
    }
  }

  // ---------------------------------------------------------------------
  // Queries

  /** `find({ userId })`: the documents whose `userId` equals `u`, in order. */
  function OfUser(ds: seq<Incident>, u: string): seq<Incident> {
    if ds == [] then []
    else (if ds[0].userId == Some(u) then [ds[0]] else []) + OfUser(ds[1..], u)
  }

  lemma {:induction false} OfUserMembers(ds: seq<Incident>, u: string)
    ensures |OfUser(ds, u)| <= |ds|
    ensures forall d :: d in OfUser(ds, u) <==> d in ds && d.userId == Some(u)
  {
    if ds != [] {
      OfUserMembers(ds[1..], u);
      assert ds == [ds[0]] + ds[1..];
    }
  }

  lemma {:induction false} OfUserBounded(ds: seq<Incident>, u: string, t: int)
    requires NoNewerThan(ds, t)
    ensures NoNewerThan(OfUser(ds, u), t)
  {
    if ds != [] {
      assert NoNewerThan(ds[1..], t) by {
        forall k | 0 <= k < |ds[1..]| ensures ds[1..][k].createdAt <= t { assert ds[1..][k] == ds[k + 1]; }
      }
      OfUserBounded(ds[1..], u, t);
      var head: seq<Incident> := if ds[0].userId == Some(u) then [ds[0]] else [];
      var tail := OfUser(ds[1..], u);
      forall k | 0 <= k < |head + tail| ensures (head + tail)[k].createdAt <= t {
        if k >= |head| { assert (head + tail)[k] == tail[k - |head|]; }
      }
    }
  }

  /** `getIncidents()`: every document, newest first, serialized. */
  function GetIncidents(ds: seq<Incident>): (r: seq<IncidentView>)
    ensures |r| == |ds|
    ensures forall i, j :: 0 <= i < j < |r| ==> r[i].createdAt >= r[j].createdAt
    ensures forall d :: d in ds <==> Serialize(d) in r
    ensures forall d :: multiset(r)[Serialize(d)] == multiset(ds)[d]
  {
    var sorted := NewestFirst(ds);
    NewestFirstIsSortedPermutation(ds);
    assert forall d :: d in ds <==> d in multiset(sorted);
    SerializeInjective();
    forall d ensures multiset(SerializeAll(sorted))[Serialize(d)] == multiset(ds)[d] {
      SerializeAllCount(sorted, d);
    }
    SerializeAll(sorted)
  }

  /** Serialization is one-to-one, so a serialized list holds each view as
      often as the list held its document. */
  lemma {:induction false} SerializeAllCount(xs: seq<Incident>, d: Incident)
    ensures multiset(SerializeAll(xs))[Serialize(d)] == multiset(xs)[d]
  {
    if xs != [] {
      var x := xs[0];
      var tail := xs[1..];
      SerializeAllCount(tail, d);
      SerializeSame(x, d);
      assert SerializeAll(xs) == [Serialize(x)] + SerializeAll(tail);
      assert xs == [x] + tail;
      CountCons(Serialize(x), SerializeAll(tail), Serialize(d));
      CountCons(x, tail, d);
    }
  }

  /** `getIncidentsForUser(userId = '1')`: only the given user's documents,
      newest first, serialized. */
  function GetIncidentsForUser(ds: seq<Incident>, userId: Option<string>): (r: seq<IncidentView>)
    ensures forall k :: 0 <= k < |r| ==> r[k].userId == Some(ParamOrDefault(userId, "1"))
    ensures forall i, j :: 0 <= i < j < |r| ==> r[i].createdAt >= r[j].createdAt
    ensures forall d :: (d in ds && d.userId == Some(ParamOrDefault(userId, "1"))) <==> Serialize(d) in r
  {
    var mine := OfUser(ds, ParamOrDefault(userId, "1"));
    OfUserMembers(ds, ParamOrDefault(userId, "1"));
    var r := GetIncidents(mine);
    assert forall k :: 0 <= k < |r| ==> r[k].userId == Some(ParamOrDefault(userId, "1")) by {
      forall k | 0 <= k < |r| ensures r[k].userId == Some(ParamOrDefault(userId, "1")) {
        var sorted := NewestFirst(mine);
        NewestFirstIsSortedPermutation(mine);
        assert r[k] == Serialize(sorted[k]);
        assert sorted[k] in multiset(mine);
      }
    }
    r
  }

  lemma SerializeSame(a: Incident, b: Incident)
    ensures Serialize(a) == Serialize(b) <==> a == b
  {
    if Serialize(a) == Serialize(b) {
      IdStringInjective(a.oid, b.oid);
    }
  }

  lemma SerializeInjective()
    ensures forall a, b :: Serialize(a) == Serialize(b) ==> a == b
  {
    forall a, b | Serialize(a) == Serialize(b) ensures a == b {
      IdStringInjective(a.oid, b.oid);
    }
  }

  /** Keeps the views of the given user. */
  function ViewsOfUser(vs: seq<IncidentView>, u: string): seq<IncidentView> {
    if vs == [] then []
    else (if vs[0].userId == Some(u) then [vs[0]] else []) + ViewsOfUser(vs[1..], u)
  }

  lemma {:induction false} InsertByDateOfUser(d: Incident, ds: seq<Incident>, u: string)
    requires NewestFirstOrder(ds)
    ensures OfUser(InsertByDate(d, ds), u)
         == if d.userId == Some(u) then InsertByDate(d, OfUser(ds, u)) else OfUser(ds, u)
  {
    if ds == [] {
    } else if ds[0].createdAt <= d.createdAt {
      assert ([d] + ds)[0] == d && ([d] + ds)[1..] == ds;
      var mine := OfUser(ds, u);
      if d.userId == Some(u) && mine != [] {
        assert NoNewerThan(ds, d.createdAt) by {
          forall k | 0 <= k < |ds| ensures ds[k].createdAt <= d.createdAt {
            if k > 0 { assert ds[0].createdAt >= ds[k].createdAt; }
          }
        }
        OfUserBounded(ds, u, d.createdAt);
        assert mine[0].createdAt <= d.createdAt;
      }
    } else {
      var rest := ds[1..];
      assert NewestFirstOrder(rest) by {
        forall i, j | 0 <= i < j < |rest| ensures rest[i].createdAt >= rest[j].createdAt {
          assert rest[i] == ds[i + 1] && rest[j] == ds[j + 1];
        }
      }
      InsertByDateOfUser(d, rest, u);
      var ins := InsertByDate(d, rest);
      assert InsertByDate(d, ds) == [ds[0]] + ins;
      assert ([ds[0]] + ins)[0] == ds[0] && ([ds[0]] + ins)[1..] == ins;
      var mine := OfUser(rest, u);
      if ds[0].userId == Some(u) {
        assert OfUser(ds, u) == [ds[0]] + mine;
        assert ([ds[0]] + mine)[0] == ds[0] && ([ds[0]] + mine)[1..] == mine;
      } else {
        assert OfUser(ds, u) == mine;
      }
    }
  }

  /** Sorting and then keeping one user's documents gives the same list as
      keeping them first and sorting after. */
  lemma {:induction false} NewestFirstOfUser(ds: seq<Incident>, u: string)
    ensures OfUser(NewestFirst(ds), u) == NewestFirst(OfUser(ds, u))
  {
    if ds != [] {
      var rest := ds[1..];
      NewestFirstOfUser(rest, u);
      NewestFirstIsSortedPermutation(rest);
      InsertByDateOfUser(ds[0], NewestFirst(rest), u);
      var mine := OfUser(rest, u);
      if ds[0].userId == Some(u) {
        assert OfUser(ds, u) == [ds[0]] + mine;
        assert ([ds[0]] + mine)[0] == ds[0] && ([ds[0]] + mine)[1..] == mine;
      } else {
        assert OfUser(ds, u) == mine;
      }
    }
  }

  lemma {:induction false} SerializeAllOfUser(ds: seq<Incident>, u: string)
    ensures ViewsOfUser(SerializeAll(ds), u) == SerializeAll(OfUser(ds, u))
  {
    if ds != [] {
      SerializeAllOfUser(ds[1..], u);
      assert SerializeAll(ds)[1..] == SerializeAll(ds[1..]);
    }
  }

  /** A user's list is exactly the full list with the other users' incidents
      taken out: same order, same serialized form. */
  lemma UserListIsFilteredFullList(ds: seq<Incident>, userId: Option<string>)
    ensures GetIncidentsForUser(ds, userId) == ViewsOfUser(GetIncidents(ds), ParamOrDefault(userId, "1"))
  {
    var u := ParamOrDefault(userId, "1");
    NewestFirstOfUser(ds, u);
    SerializeAllOfUser(NewestFirst(ds), u);
  }

  // ---------------------------------------------------------------------
  // Construction of a new document: `addIncident`

  datatype NewIncidentData = NewIncidentData(
    kind: string,
    severity: string,
    description: string,
    location: string,
    image: Option<string>,
    userId: Option<string>,
    isSos: Option<bool>)

  const DefaultUserId: string := "1"

  /** The document `addIncident` inserts for `data`, given the id the driver
      assigns and the current moment. */
  function NewIncident(data: NewIncidentData, oid: Oid, now: int): (d: Incident)
    ensures d.status == Reported
    ensures d.userId.Some? && d.userId.value != ""
    ensures data.userId.Some? && data.userId.value != "" ==> d.userId == data.userId
    ensures !(data.userId.Some? && data.userId.value != "") ==> d.userId == Some(DefaultUserId)
    ensures d.isSos == Some(data.isSos == Some(true))
    ensures d.createdAt == now && d.oid == oid
    ensures d.kind == data.kind && d.severity == data.severity && d.description == data.description
    ensures d.location == data.location && d.image == data.image
  {
    var sos := data.isSos.GetOr(false);
    assert sos == (data.isSos == Some(true));
    Incident(oid, data.kind, data.severity, data.description, now, Reported,
             data.location, data.image, Some(OrDefault(data.userId, DefaultUserId)),
             Some(sos))
  }

  // ---------------------------------------------------------------------
  // The collection

  function Ids(ds: seq<Incident>): set<Oid> {
    set k | 0 <= k < |ds| :: ds[k].oid
  }

  predicate DistinctIds(ds: seq<Incident>) {
    forall i, j :: 0 <= i < |ds| && 0 <= j < |ds| && i != j ==> ds[i].oid != ds[j].oid
  }

  /** The position of the document with id `o`, if any. */
  function IndexOfId(ds: seq<Incident>, o: Oid): (r: Option<nat>)
    ensures r.Some? ==> r.value < |ds| && ds[r.value].oid == o
    ensures r.None? ==> o !in Ids(ds)
    ensures r.Some? ==> forall k :: 0 <= k < r.value ==> ds[k].oid != o
  {
    if ds == [] then None
    else if ds[0].oid == o then Some(0)
    else match IndexOfId(ds[1..], o)
      case None => (assert Ids(ds) == {ds[0].oid} + Ids(ds[1..]); None)
      case Some(k) => Some(k + 1)
  }

  function RemoveAt(ds: seq<Incident>, k: nat): (r: seq<Incident>)
    requires k < |ds|
    ensures |r| == |ds| - 1
  {
    ds[..k] + ds[k + 1..]
  }

  datatype StoreError = BadId(cause: IdError) | DuplicateKey(oid: Oid)

  class IncidentStore {
    var docs: seq<Incident>

    ghost predicate Valid()
      reads this
    {
      DistinctIds(docs)
    }

    constructor ()
      ensures Valid() && docs == []
    {
      docs := [];
    }

    /** `addIncident`: inserts the new document; an id already in the
        collection makes the insert fail with a duplicate-key error. */
    method AddIncident(data: NewIncidentData, oid: Oid, now: int) returns (r: Result<IncidentView, StoreError>)
      requires Valid()
      modifies this
      ensures Valid()
      ensures oid in Ids(old(docs)) ==> r == Err(DuplicateKey(oid)) && docs == old(docs)
      ensures oid !in Ids(old(docs)) ==>
                docs == old(docs) + [NewIncident(data, oid, now)]
                && r == Ok(Serialize(NewIncident(data, oid, now)))
    {
      if oid in Ids(docs) {
        return Err(DuplicateKey(oid));
      }
      var d := NewIncident(data, oid, now);
      assert forall k :: 0 <= k < |docs| ==> docs[k].oid in Ids(docs);
      docs := docs + [d];
      r := Ok(Serialize(d));
    }

    /** `updateIncidentStatus`: sets the status of the document with that id
        and returns it; `None` when no document has the id. */
    method UpdateIncidentStatus(id: string, status: Status) returns (r: Result<Option<IncidentView>, StoreError>)
      requires Valid()
      requires status == InProgress || status == Resolved
      modifies this
      ensures Valid()
      ensures ParseObjectId(id).Err? ==> r == Err(BadId(ParseObjectId(id).error)) && docs == old(docs)
      ensures ParseObjectId(id).Ok? && ParseObjectId(id).value !in Ids(old(docs)) ==>
                r == Ok(None) && docs == old(docs)
      ensures ParseObjectId(id).Ok? && ParseObjectId(id).value in Ids(old(docs)) ==>
                exists k :: 0 <= k < |old(docs)| && old(docs)[k].oid == ParseObjectId(id).value
                  && docs == old(docs)[k := old(docs)[k].(status := status)]
                  && r == Ok(Some(Serialize(docs[k])))
    {
      var parsed := ParseObjectId(id);
      if parsed.Err? {
        return Err(BadId(parsed.error));
      }
      var found := IndexOfId(docs, parsed.value);
      if found.None? {
        return Ok(None);
      }
      var k := found.value;
      docs := docs[k := docs[k].(status := status)];
      r := Ok(Some(Serialize(docs[k])));
    }

    /** `deleteIncident`: `success` is whether a document was removed. */
    method DeleteIncident(id: string) returns (r: Result<bool, StoreError>)
      requires Valid()
      modifies this
      ensures Valid()
      ensures ParseObjectId(id).Err? ==> r == Err(BadId(ParseObjectId(id).error)) && docs == old(docs)
      ensures ParseObjectId(id).Ok? ==> r.Ok?
      ensures r.Ok? ==> (r.value <==> ParseObjectId(id).value in Ids(old(docs)))
      ensures r.Ok? && !r.value ==> docs == old(docs)
      ensures r.Ok? && r.value ==>
                exists k :: 0 <= k < |old(docs)| && old(docs)[k].oid == ParseObjectId(id).value
                  && docs == RemoveAt(old(docs), k)
      ensures r.Ok? ==> ParseObjectId(id).value !in Ids(docs)
    {
      var parsed := ParseObjectId(id);
      if parsed.Err? {
        return Err(BadId(parsed.error));
      }
      var found := IndexOfId(docs, parsed.value);
      if found.None? {
        return Ok(false);
      }
      var k := found.value;
      ghost var before := docs;
      docs := RemoveAt(docs, k);
      forall j | 0 <= j < |docs| ensures docs[j].oid != parsed.value {
        if j < k { assert docs[j] == before[j]; } else { assert docs[j] == before[j + 1]; }
      }
      r := Ok(true);
    }
  }
}
