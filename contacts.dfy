/** The emergency-contact store: documents of the `contacts` collection, the
    per-user projection `getContacts` returns, and `saveContacts`, which
    replaces a user's whole list. */
module Contacts {
  import opened Prelude
  import opened ObjectIds

  const DefaultUserId: string := "1"

  /** A stored document. */
  datatype Contact = Contact(oid: Oid, userId: string, name: string, phone: string)

  /** `ContactSerializable`. */
  datatype ContactView = ContactView(mongoId: string, userId: string, name: string, phone: string)

  /** The `{ name, phone }` pairs the callers exchange with the store. */
  datatype Entry = Entry(name: string, phone: string)

  /** `serializeContact`: the document with its id printed. */
  function SerializeContact(c: Contact): (v: ContactView)
    ensures ParseObjectId(v.mongoId) == Ok(c.oid)
    ensures v.userId == c.userId && v.name == c.name && v.phone == c.phone
  {
    IdStringRoundTrip(c.oid);
    ContactView(IdString(c.oid), c.userId, c.name, c.phone)
  }

  /** The name/phone pairs of `u`'s documents, in collection order. */
  function ContactsOf(docs: seq<Contact>, u: string): seq<Entry> {
    if docs == [] then []
    else (if docs[0].userId == u then [Entry(docs[0].name, docs[0].phone)] else [])
         + ContactsOf(docs[1..], u)
  }

  /** The query `{ userId: u }`. */
  function OwnedBy(u: string): Contact -> bool {
    (c: Contact) => c.userId == u
  }

  function EntryOf(c: Contact): Entry {
    Entry(c.name, c.phone)
  }

  /** `getContacts(userId = '1')`: the user's documents in collection order,
      one entry each. */
  function GetContacts(docs: seq<Contact>, userId: Option<string>): (r: seq<Entry>)
    ensures forall e :: e in r <==>
              exists c :: c in docs && c.userId == ParamOrDefault(userId, DefaultUserId)
                                    && e == Entry(c.name, c.phone)
    ensures |r| == |Filter(docs, OwnedBy(ParamOrDefault(userId, DefaultUserId)))|
    ensures forall k :: 0 <= k < |r| ==>
              r[k] == EntryOf(Filter(docs, OwnedBy(ParamOrDefault(userId, DefaultUserId)))[k])
  {
    ContactsOfMembers(docs, ParamOrDefault(userId, DefaultUserId));
    ContactsOfIsFilter(docs, ParamOrDefault(userId, DefaultUserId));
    ContactsOf(docs, ParamOrDefault(userId, DefaultUserId))
  }

  /** The projection is `find({ userId }).toArray().map(...)`: the matching
      documents, in order, one entry each. */
  lemma {:induction false} ContactsOfIsFilter(docs: seq<Contact>, u: string)
    ensures |ContactsOf(docs, u)| == |Filter(docs, OwnedBy(u))|
    ensures forall k :: 0 <= k < |ContactsOf(docs, u)| ==>
              ContactsOf(docs, u)[k] == EntryOf(Filter(docs, OwnedBy(u))[k])
  {
    if docs != [] {
      ContactsOfIsFilter(docs[1..], u);
      var h: seq<Entry> := if docs[0].userId == u then [EntryOf(docs[0])] else [];
      var hf: seq<Contact> := if OwnedBy(u)(docs[0]) then [docs[0]] else [];
      var a := ContactsOf(docs[1..], u);
      var f := Filter(docs[1..], OwnedBy(u));
      assert ContactsOf(docs, u) == h + a;
      assert Filter(docs, OwnedBy(u)) == hf + f;
      forall k | 0 <= k < |h + a| ensures (h + a)[k] == EntryOf((hf + f)[k]) {
        if k >= |h| {
          assert (h + a)[k] == a[k - |h|];
          assert (hf + f)[k] == f[k - |hf|];
        }
      }
    }
  }

  lemma {:induction false} ContactsOfMembers(docs: seq<Contact>, u: string)
    ensures forall e :: e in ContactsOf(docs, u) <==>
              exists c :: c in docs && c.userId == u && e == Entry(c.name, c.phone)
  {
    if docs != [] {
      ContactsOfMembers(docs[1..], u);
      assert docs == [docs[0]] + docs[1..];
      forall e | e in ContactsOf(docs, u)
        ensures exists c :: c in docs && c.userId == u && e == Entry(c.name, c.phone)
      {
        if docs[0].userId == u && e == Entry(docs[0].name, docs[0].phone) {
          assert docs[0] in docs;
        } else {
          assert e in ContactsOf(docs[1..], u);
          var c :| c in docs[1..] && c.userId == u && e == Entry(c.name, c.phone);
          assert c in docs;
        }
      }
    }
  }

  /** `newContacts.filter(c => c.name && c.phone)`: entries with a non-empty
      name and a non-empty phone, in order. */
  function Keepable(list: seq<Entry>): seq<Entry> {
    if list == [] then []
    else (if list[0].name != "" && list[0].phone != "" then [list[0]] else []) + Keepable(list[1..])
  }

  lemma {:induction false} KeepableSpec(list: seq<Entry>)
    ensures |Keepable(list)| <= |list|
    ensures forall e :: e in Keepable(list) <==> e in list && e.name != "" && e.phone != ""
  {
    if list != [] {
      KeepableSpec(list[1..]);
      assert list == [list[0]] + list[1..];
    }
  }

  lemma {:induction false} NothingKeepable(list: seq<Entry>)
    requires forall k :: 0 <= k < |list| ==> list[k].name == "" || list[k].phone == ""
    ensures Keepable(list) == []
  {
    if list != [] {
      NothingKeepable(list[1..]);
    }
  }

  /** `deleteMany({ userId })`: the documents of every other user. */
  function OthersOf(docs: seq<Contact>, u: string): seq<Contact> {
    if docs == [] then []
    else (if docs[0].userId != u then [docs[0]] else []) + OthersOf(docs[1..], u)
  }

  /** The documents `insertMany` adds: each entry stamped with the user and a
      fresh object id. */
  function Stamped(entries: seq<Entry>, u: string, ids: seq<Oid>): (r: seq<Contact>)
    requires |ids| >= |entries|
    ensures |r| == |entries|
    ensures forall k :: 0 <= k < |r| ==> r[k].userId == u
  {
    if entries == [] then []
    else [Contact(ids[0], u, entries[0].name, entries[0].phone)] + Stamped(entries[1..], u, ids[1..])
  }

  /** The collection after `saveContacts(list, u)`. */
  function Saved(docs: seq<Contact>, list: seq<Entry>, u: string, ids: seq<Oid>): seq<Contact>
    requires |ids| >= |Keepable(list)|
  {
    var keep := Keepable(list);
    OthersOf(docs, u) + (if |keep| > 0 then Stamped(keep, u, ids) else [])
  }

  lemma {:induction false} ContactsOfAppend(a: seq<Contact>, b: seq<Contact>, u: string)
    ensures ContactsOf(a + b, u) == ContactsOf(a, u) + ContactsOf(b, u)
  {
    if a != [] {
      ContactsOfAppend(a[1..], b, u);
      assert (a + b)[0] == a[0] && (a + b)[1..] == a[1..] + b;
    } else {
      assert a + b == b;
    }
  }

  lemma {:induction false} OthersOfAppend(a: seq<Contact>, b: seq<Contact>, u: string)
    ensures OthersOf(a + b, u) == OthersOf(a, u) + OthersOf(b, u)
  {
    if a != [] {
      OthersOfAppend(a[1..], b, u);
      assert (a + b)[0] == a[0] && (a + b)[1..] == a[1..] + b;
    } else {
      assert a + b == b;
    }
  }

  lemma {:induction false} OthersHaveNoneOf(docs: seq<Contact>, u: string)
    ensures ContactsOf(OthersOf(docs, u), u) == []
  {
    if docs != [] {
      OthersHaveNoneOf(docs[1..], u);
      var head: seq<Contact> := if docs[0].userId != u then [docs[0]] else [];
      ContactsOfAppend(head, OthersOf(docs[1..], u), u);
      if docs[0].userId != u { assert head[1..] == []; }
    }
  }

  lemma {:induction false} OthersKeepOtherUsers(docs: seq<Contact>, u: string, v: string)
    requires v != u
    ensures ContactsOf(OthersOf(docs, u), v) == ContactsOf(docs, v)
  {
    if docs != [] {
      OthersKeepOtherUsers(docs[1..], u, v);
      var head: seq<Contact> := if docs[0].userId != u then [docs[0]] else [];
      ContactsOfAppend(head, OthersOf(docs[1..], u), v);
      if docs[0].userId != u { assert head[1..] == []; }
    }
  }

  lemma {:induction false} OthersOfIdempotent(docs: seq<Contact>, u: string)
    ensures OthersOf(OthersOf(docs, u), u) == OthersOf(docs, u)
  {
    if docs != [] {
      OthersOfIdempotent(docs[1..], u);
      var head: seq<Contact> := if docs[0].userId != u then [docs[0]] else [];
      OthersOfAppend(head, OthersOf(docs[1..], u), u);
      if docs[0].userId != u { assert head[1..] == []; }
    }
  }

  lemma {:induction false} StampedContacts(entries: seq<Entry>, u: string, ids: seq<Oid>)
    requires |ids| >= |entries|
    ensures ContactsOf(Stamped(entries, u, ids), u) == entries
    ensures OthersOf(Stamped(entries, u, ids), u) == []
    ensures forall v :: v != u ==> ContactsOf(Stamped(entries, u, ids), v) == []
  {
    if entries != [] {
      StampedContacts(entries[1..], u, ids[1..]);
      var s := Stamped(entries, u, ids);
      assert s[1..] == Stamped(entries[1..], u, ids[1..]);
      assert entries == [entries[0]] + entries[1..];
    }
  }

  /** After `saveContacts(list, u)`, `u`'s contacts are exactly the kept
      entries of `list`, in order, and every other user's are as before. */
  lemma SavedReplacesOneUser(docs: seq<Contact>, list: seq<Entry>, u: string, ids: seq<Oid>)
    requires |ids| >= |Keepable(list)|
    ensures ContactsOf(Saved(docs, list, u, ids), u) == Keepable(list)
    ensures forall v :: v != u ==> ContactsOf(Saved(docs, list, u, ids), v) == ContactsOf(docs, v)
  {
    var keep := Keepable(list);
    var added := if |keep| > 0 then Stamped(keep, u, ids) else [];
    ContactsOfAppend(OthersOf(docs, u), added, u);
    OthersHaveNoneOf(docs, u);
    if |keep| > 0 { StampedContacts(keep, u, ids); }
    forall v | v != u ensures ContactsOf(Saved(docs, list, u, ids), v) == ContactsOf(docs, v) {
      ContactsOfAppend(OthersOf(docs, u), added, v);
      OthersKeepOtherUsers(docs, u, v);
      if |keep| > 0 { StampedContacts(keep, u, ids); }
    }
  }

  /** A list whose every entry lacks a name or a phone (the empty list too)
      leaves the user with no contacts. */
  lemma {:induction false} SavingNothingClears(docs: seq<Contact>, list: seq<Entry>, u: string, ids: seq<Oid>)
    requires forall k :: 0 <= k < |list| ==> list[k].name == "" || list[k].phone == ""
    ensures |ids| >= |Keepable(list)|
    ensures ContactsOf(Saved(docs, list, u, ids), u) == []
  {
    NothingKeepable(list);
    SavedReplacesOneUser(docs, list, u, ids);
  }

  /** Saving the same list twice leaves the collection as saving it once with
      the second batch of ids: a save replaces, it never appends. */
  lemma SaveTwiceIsSaveOnce(docs: seq<Contact>, list: seq<Entry>, u: string, ids1: seq<Oid>, ids2: seq<Oid>)
    requires |ids1| >= |Keepable(list)| && |ids2| >= |Keepable(list)|
    ensures Saved(Saved(docs, list, u, ids1), list, u, ids2) == Saved(docs, list, u, ids2)
  {
    var keep := Keepable(list);
    var added := if |keep| > 0 then Stamped(keep, u, ids1) else [];
    OthersOfAppend(OthersOf(docs, u), added, u);
    OthersOfIdempotent(docs, u);
    if |keep| > 0 { StampedContacts(keep, u, ids1); }
    assert OthersOf(added, u) == [];
    assert OthersOf(Saved(docs, list, u, ids1), u) == OthersOf(docs, u);
  }

  class ContactStore {
    var docs: seq<Contact>

    constructor ()
      ensures docs == []
    {
      docs := [];
    }

    /** `saveContacts(newContacts, userId = '1')`: delete the user's
        documents, then insert the kept entries (skipped when none are). The
        driver's fresh ids come in as `ids`. */
    method SaveContacts(newContacts: seq<Entry>, userId: Option<string>, ids: seq<Oid>)
      requires |ids| >= |Keepable(newContacts)|
      modifies this
      ensures docs == Saved(old(docs), newContacts, ParamOrDefault(userId, DefaultUserId), ids)
      ensures ContactsOf(docs, ParamOrDefault(userId, DefaultUserId)) == Keepable(newContacts)
      ensures forall v :: v != ParamOrDefault(userId, DefaultUserId) ==>
                ContactsOf(docs, v) == ContactsOf(old(docs), v)
    {
      var u := ParamOrDefault(userId, DefaultUserId);
      SavedReplacesOneUser(docs, newContacts, u, ids);
      docs := OthersOf(docs, u);
      var contactsToInsert := Keepable(newContacts);
      if |contactsToInsert| > 0 {
        docs := docs + Stamped(contactsToInsert, u, ids);
      }
    }
  }
}
