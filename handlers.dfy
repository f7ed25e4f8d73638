/**
  The four `/blood-group` route handlers over the donor collection. Each handler
  answers with one HTTP status; whatever the store raises ends in 500. The driver's
  `ObjectId.isValid` is the collection's `idIsValid`, and constructing an
  `ObjectId` from a string throws exactly when that predicate rejects it. A failure
  inside the driver (lost connection, failed query) is the `storeFault` argument.
*/
module Handlers {
  import opened Wrappers
  import opened Documents
  import opened Listing

  /** A status code and the text of the reply's `message` (or `error`) field. */
  datatype Reply = Reply(status: int, message: string)

  const UpdatedMessage: string := "Donor updated successfully"
  const NoDataMessage: string := "No data provided for update"
  const NotFoundMessage: string := "Donor not found"
  const InvalidIdMessage: string := "Invalid donor ID"
  const DeletedMessage: string := "Donor deleted successfully"
  const SavedMessage: string := "Data saved"
  const ServerErrorMessage: string := "Server error"

  /** The reply of `GET /blood-group`: the envelope, or a server error. */
  datatype ListReply = Listed(envelope: Envelope) | ListFailed(reply: Reply)

  predicate NoDuplicates(ids: seq<Id>) {
    forall i, j :: 0 <= i < j < |ids| ==> ids[i] != ids[j]
  }

  /** `ids` with `id` taken out. */
  function Without(ids: seq<Id>, id: Id): (r: seq<Id>)
    ensures forall x :: x in r <==> x in ids && x != id
    ensures NoDuplicates(ids) ==> NoDuplicates(r)
  {
    if ids == [] then []
    else
      var rest := Without(ids[1..], id);
      assert forall x :: x in ids <==> x == ids[0] || x in ids[1..];
      if ids[0] == id then rest
      else
        assert NoDuplicates(ids) ==> ids[0] !in ids[1..];
        [ids[0]] + rest
  }

  /** No two records of `rs` share an identifier. */
  predicate DistinctIds(rs: seq<Record>) {
    forall i, j :: 0 <= i < j < |rs| ==> rs[i].id != rs[j].id
  }

  /** The stored documents listed in the order given by `ids`. */
  function RecordsOf(ids: seq<Id>, docs: map<Id, Doc>): (r: seq<Record>)
    ensures forall x :: x in r <==> x.id in ids && x.id in docs && x.doc == docs[x.id]
    ensures NoDuplicates(ids) ==> DistinctIds(r)
  {
    if ids == [] then []
    else
      assert forall x :: x in ids <==> x == ids[0] || x in ids[1..];
      var rest := RecordsOf(ids[1..], docs);
      assert NoDuplicates(ids) ==> ids[0] !in ids[1..] && NoDuplicates(ids[1..]);
      assert forall k :: 0 <= k < |rest| ==> rest[k] in rest;
      (if ids[0] in docs then [Record(ids[0], docs[ids[0]])] else []) + rest
  }

  /** Adding a new document at the end of the order adds its record at the end. */
  lemma {:induction false} RecordsOfAppend(ids: seq<Id>, docs: map<Id, Doc>, id: Id, d: Doc)
    requires id !in ids
    ensures RecordsOf(ids + [id], docs[id := d]) == RecordsOf(ids, docs) + [Record(id, d)]
  {
    if ids == [] {
      assert ids + [id] == [id];
    } else {
      assert (ids + [id])[1..] == ids[1..] + [id];
      RecordsOfAppend(ids[1..], docs, id, d);
    }
  }

  /** Every stored document is free of blank field names. */
  ghost predicate AllClean(docs: map<Id, Doc>) {
    forall id :: id in docs ==> NoBlankKeys(docs[id])
  }

  /** A successful `PUT` introduces no blank field name. */
  lemma UpdateKeepsAllClean(docs: map<Id, Doc>, id: Id, body: Doc)
    requires AllClean(docs) && id in docs
    ensures AllClean(docs[id := Merge(docs[id], CleanData(body))])
  {
  }

  /** A record that the query selects is found once it is in the store: what
      `POST` stores, a matching `GET` returns with the same fields. */
  lemma InsertedDonorIsFound(rs: seq<Record>, created: Record, q: ListQuery,
                             matches: (string, string) -> bool)
    requires Selected(created.doc, q.search, q.bloodGroup, matches)
    ensures created in Found(rs + [created], q, matches)
    ensures |Found(rs + [created], q, matches)| == |Found(rs, q, matches)| + 1
  {
    QueryMeaning(q.search, q.bloodGroup, created.doc, matches);
    MatchingAppend(rs, created, BuildQuery(q.search, q.bloodGroup), matches);
  }

  lemma {:induction false} MatchingAppend(rs: seq<Record>, x: Record, f: Filter,
                                          matches: (string, string) -> bool)
    requires Eval(f, x.doc, matches)
    ensures Matching(rs + [x], f, matches) == Matching(rs, f, matches) + [x]
  {
    if rs == [] {
      assert Matching([x][1..], f, matches) == [];
    } else {
      var tail := (rs + [x])[1..];
      assert tail == rs[1..] + [x];
      MatchingAppend(rs[1..], x, f, matches);
      assert Matching(tail, f, matches) == Matching(rs[1..], f, matches) + [x];
    }
  }

  /** The first identifier of a sequence with distinct identifiers does not occur
      in the rest. */
  lemma HeadIdFresh(rs: seq<Record>)
    requires rs != [] && DistinctIds(rs)
    ensures forall y :: y in rs[1..] ==> y.id != rs[0].id
  {
    forall y | y in rs[1..]
      ensures y.id != rs[0].id
    {
      var k :| 0 <= k < |rs[1..]| && rs[1..][k] == y;
      assert rs[k + 1] == y;
    }
  }

  /** A record whose identifier is fresh can go in front. */
  lemma DistinctIdsCons(x: Record, rest: seq<Record>)
    requires DistinctIds(rest) && forall y :: y in rest ==> y.id != x.id
    ensures DistinctIds([x] + rest)
  {
    var r := [x] + rest;
    forall i, j | 0 <= i < j < |r|
      ensures r[i].id != r[j].id
    {
      assert r[j] == rest[j - 1];
      if i > 0 {
        assert r[i] == rest[i - 1];
      }
    }
  }

  /** Filtering keeps identifiers distinct. */
  lemma {:induction false} MatchingKeepsDistinctIds(rs: seq<Record>, f: Filter,
                                                    matches: (string, string) -> bool)
    requires DistinctIds(rs)
    ensures DistinctIds(Matching(rs, f, matches))
  {
    if rs != [] {
      var rest := Matching(rs[1..], f, matches);
      assert DistinctIds(rs[1..]);
      MatchingKeepsDistinctIds(rs[1..], f, matches);
      if Eval(f, rs[0].doc, matches) {
        HeadIdFresh(rs);
        DistinctIdsCons(rs[0], rest);
      }
    }
  }

  /** A sequence of records with distinct identifiers has as many records as
      identifiers. */
  lemma {:induction false} DistinctIdsCount(rs: seq<Record>)
    requires DistinctIds(rs)
    ensures |set x | x in rs :: x.id| == |rs|
  {
    if rs != [] {
      DistinctIdsCount(rs[1..]);
      var tail := set x | x in rs[1..] :: x.id;
      assert (set x | x in rs :: x.id) == {rs[0].id} + tail;
      HeadIdFresh(rs);
    }
  }

  /** The `total` of a listing counts the stored documents the query selects,
      one per identifier. */
  lemma FoundCountsSelected(order: seq<Id>, docs: map<Id, Doc>, q: ListQuery,
                            matches: (string, string) -> bool)
    requires NoDuplicates(order) && forall id :: id in order <==> id in docs
    ensures |Found(RecordsOf(order, docs), q, matches)| ==
            |set id | id in docs && Selected(docs[id], q.search, q.bloodGroup, matches)|
  {
    var rs := RecordsOf(order, docs);
    var f := BuildQuery(q.search, q.bloodGroup);
    var found := Found(rs, q, matches);
    MatchingKeepsDistinctIds(rs, f, matches);
    DistinctIdsCount(found);
    forall doc: Doc
      ensures Eval(f, doc, matches) <==> Selected(doc, q.search, q.bloodGroup, matches)
    {
      QueryMeaning(q.search, q.bloodGroup, doc, matches);
    }
    var selected := set id | id in docs && Selected(docs[id], q.search, q.bloodGroup, matches);
    forall id | id in selected
      ensures id in set x | x in found :: x.id
    {
      assert Record(id, docs[id]) in found;
    }
    assert (set x | x in found :: x.id) == selected;
  }

  /** The donor collection: its documents by identifier, and the order in which
      the store returns them before sorting. */
  class DonorCollection {
    var docs: map<Id, Doc>
    var order: seq<Id>
    const idIsValid: string -> bool

    ghost predicate Valid()
      reads this
    {
      NoDuplicates(order) && forall id :: id in order <==> id in docs
    }

    /** The stored records in the store's order. */
    function Records(): (r: seq<Record>)
      reads this
      requires Valid()
      ensures forall x :: x in r <==> x.id in docs && x.doc == docs[x.id]
    {
      RecordsOf(order, docs)
    }

    /** A handle on the existing collection: it holds whatever the store already
        holds (`docs0`), in the store's order (`order0`). */
    constructor (idIsValid: string -> bool, docs0: map<Id, Doc>, order0: seq<Id>)
      requires NoDuplicates(order0) && forall id :: id in order0 <==> id in docs0
      ensures Valid() && docs == docs0 && order == order0
      ensures this.idIsValid == idIsValid
    {
      docs := docs0;
      order := order0;
      this.idIsValid := idIsValid;
    }

    /** `PUT /blood-group/:id`. The body is cleaned and, when nothing is left,
        refused before the id is looked at. The id itself is not validated: a
        malformed one makes `new ObjectId(id)` throw, which ends in 500. */
    method Update(id: string, body: Doc, storeFault: bool) returns (reply: Reply)
      requires Valid()
      modifies this
      ensures Valid() && order == old(order)
      ensures reply.status in {200, 400, 404, 500}
      ensures reply.status == 400 <==> CleanData(body) == map[]
      ensures reply.status == 500 <==> CleanData(body) != map[] && (!idIsValid(id) || storeFault)
      ensures reply.status == 404 <==>
                CleanData(body) != map[] && idIsValid(id) && !storeFault && id !in old(docs)
      ensures reply.status == 200 ==>
                id in old(docs) && docs == old(docs)[id := Merge(old(docs)[id], CleanData(body))]
      ensures reply.status != 200 ==> docs == old(docs)
      ensures reply.status == 200 ==> reply.message == UpdatedMessage
      ensures reply.status == 400 ==> reply.message == NoDataMessage
      ensures reply.status == 404 ==> reply.message == NotFoundMessage
      ensures reply.status == 500 ==> reply.message == ServerErrorMessage
      ensures AllClean(old(docs)) ==> AllClean(docs)
    {
      var updatedData := CleanData(body);
      assert |updatedData| == 0 <==> updatedData == map[];
      if |updatedData| == 0 {
        return Reply(400, NoDataMessage);
      }
      if !idIsValid(id) {
        // new ObjectId(id) throws
        return Reply(500, ServerErrorMessage);
      }
      if storeFault {
        return Reply(500, ServerErrorMessage);
      }
      if id !in docs {
        // matchedCount === 0
        return Reply(404, NotFoundMessage);
      }
      if AllClean(docs) {
        UpdateKeepsAllClean(docs, id, body);
      }
      docs := docs[id := Merge(docs[id], updatedData)];
      reply := Reply(200, UpdatedMessage);
    }

    /** `DELETE /blood-group/:id`. A malformed id is refused before the store is
        called; otherwise the one document with that id is removed, if there is
        one. */
    method Delete(id: string, storeFault: bool) returns (reply: Reply)
      requires Valid()
      modifies this
      ensures Valid()
      ensures reply.status in {200, 400, 404, 500}
      ensures reply.status == 400 <==> !idIsValid(id)
      ensures reply.status == 500 <==> idIsValid(id) && storeFault
      ensures reply.status == 404 <==> idIsValid(id) && !storeFault && id !in old(docs)
      ensures reply.status == 200 ==>
                id in old(docs) && docs == old(docs) - {id} && order == Without(old(order), id)
      ensures reply.status != 200 ==> docs == old(docs) && order == old(order)
      ensures reply.status == 200 ==> reply.message == DeletedMessage
      ensures reply.status == 400 ==> reply.message == InvalidIdMessage
      ensures reply.status == 404 ==> reply.message == NotFoundMessage
      ensures reply.status == 500 ==> reply.message == ServerErrorMessage
      ensures AllClean(old(docs)) ==> AllClean(docs)
    {
      if !idIsValid(id) {
        return Reply(400, InvalidIdMessage);
      }
      if storeFault {
        return Reply(500, ServerErrorMessage);
      }
      if id !in docs {
        // deletedCount === 0
        return Reply(404, NotFoundMessage);
      }
      docs := docs - {id};
      order := Without(order, id);
      reply := Reply(200, DeletedMessage);
    }

    /** `POST /blood-group`. The body is stored as it is, blank keys included,
        under the identifier the driver generates (`newId`); the collection's unique
        `_id` index refuses an identifier already in use. */
    method Insert(data: Doc, newId: Id, storeFault: bool) returns (reply: Reply, insertedId: Option<Id>)
      requires Valid()
      modifies this
      ensures Valid()
      ensures reply.status in {201, 500}
      ensures reply.status == 201 <==> !storeFault && newId !in old(docs)
      ensures reply.status == 201 ==>
                && docs == old(docs)[newId := data]
                && order == old(order) + [newId]
                && Records() == old(Records()) + [Record(newId, data)]
                && insertedId == Some(newId)
                && reply.message == SavedMessage
      ensures reply.status == 500 ==>
                docs == old(docs) && order == old(order) && insertedId == None &&
                reply.message == ServerErrorMessage
    {
      if storeFault || newId in docs {
        return Reply(500, ServerErrorMessage), None;
      }
      RecordsOfAppend(order, docs, newId, data);
      docs := docs[newId := data];
      order := order + [newId];
      reply, insertedId := Reply(201, SavedMessage), Some(newId);
    }

    /** `GET /blood-group`. Defaults fill in the absent parameters; the count and
        the page are computed over the same stored records. */
    method List(raw: RawQuery, matches: (string, string) -> bool,
                keyLe: (Option<Value>, Option<Value>) -> bool, storeFault: bool)
      returns (reply: ListReply)
      requires Valid()
      ensures reply.ListFailed? <==> storeFault
      ensures reply.ListFailed? ==> reply.reply == Reply(500, ServerErrorMessage)
      ensures reply.Listed? ==>
                reply.envelope == Respond(Records(), Resolve(raw), matches, keyLe)
      ensures reply.Listed? ==>
                reply.envelope.total ==
                |set id | id in docs && Selected(docs[id], Resolve(raw).search, Resolve(raw).bloodGroup, matches)|
    {
      if storeFault {
        return ListFailed(Reply(500, ServerErrorMessage));
      }
      var q := Resolve(raw);
      FoundCountsSelected(order, docs, q, matches);
      reply := Listed(Respond(Records(), q, matches, keyLe));
    }
  }
}

/** Clients of the handlers, following a donor through its life. The identifier
    check used here (24 characters) stands in for the driver's. */
module Walkthrough {
  import opened Documents
  import opened Handlers

  const CarlId: string := "65f0c0ffee0000000000c001"

  /** Create a donor, update it with a body that also holds an empty key, read it
      back: the empty key is dropped and `Name` is untouched. */
  method CreateUpdateRead()
  {
    var donors := new DonorCollection(id => |id| == 24, map[], []);
    var carl := map["Name" := Str("Carl"), "Blood_Group" := Str("A+")];
    var created, _ := donors.Insert(carl, CarlId, false);
    assert created.status == 201 && donors.docs[CarlId] == carl;

    var patch := map["Blood_Group" := Str("B+"), "" := Str("ignored")];
    CleanDataExample();
    MergeExample();
    assert "Blood_Group" in CleanData(patch);
    assert donors.idIsValid(CarlId);
    var updated := donors.Update(CarlId, patch, false);
    assert updated == Reply(200, UpdatedMessage);
    assert donors.docs[CarlId] == map["Name" := Str("Carl"), "Blood_Group" := Str("B+")];
  }

  /** A body with nothing left after cleaning is refused before the id is looked
      at; a malformed id with something to set ends in a server error. Neither
      touches the collection. */
  method RefusedUpdates(donors: DonorCollection)
    requires donors.Valid() && !donors.idIsValid("")
    modifies donors
  {
    ghost var before := donors.docs;
    var blank := donors.Update("", map[" \t" := Str("x")], false);
    assert blank == Reply(400, NoDataMessage);

    var patch := map["Blood_Group" := Str("B+")];
    assert !AllWhitespace("Blood_Group") by {
      assert !IsJsWhitespace("Blood_Group"[0]);
    }
    assert "Blood_Group" in CleanData(patch);
    var malformed := donors.Update("", patch, false);
    assert malformed == Reply(500, ServerErrorMessage);
    assert donors.docs == before;
  }

  /** Deleting the same donor twice: found the first time, not the second. */
  method DeleteTwice(donors: DonorCollection)
    requires donors.Valid() && donors.idIsValid(CarlId) && CarlId in donors.docs
    modifies donors
  {
    var gone := donors.Delete(CarlId, false);
    assert gone == Reply(200, DeletedMessage) && CarlId !in donors.docs;
    var again := donors.Delete(CarlId, false);
    assert again == Reply(404, NotFoundMessage);
  }
}
