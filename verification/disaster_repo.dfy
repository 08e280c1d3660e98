/** The disaster stores: the in-memory map of
    services/disaster-service/repo/disaster.go and the MongoDB collection of
    services/disaster-service/repo/mongodb.go, both as maps from id to
    record. A driver failure of a Mongo operation is a parameter (`fault`);
    clocks and generated ids are parameters too. */
module DisasterRepo {
  import opened Errors
  import opened Domain

  // ----- in memory -----

  type MemStore = map<string, Disaster>

  /** Create: store the record, with status "pending", under its own id,
      replacing any record there; return that id. Nothing else changes. */
  function MemCreate(s: MemStore, d: Disaster): (r: (MemStore, string))
    ensures r.1 == d.id
    ensures d.id in r.0 && r.0[d.id] == d.(status := StatusPending)
    ensures forall k :: k != d.id ==> (k in r.0 <==> k in s)
    ensures forall k :: k != d.id && k in s ==> r.0[k] == s[k]
  {
    (s[d.id := d.(status := StatusPending)], d.id)
  }

  /** Delete: remove the key, present or not; nil in either case. */
  function MemDelete(s: MemStore, id: string): (r: MemStore)
    ensures id !in r
    ensures forall k :: k != id ==> (k in r <==> k in s)
    ensures forall k :: k != id && k in s ==> r[k] == s[k]
  {
    s - {id}
  }

  /** Deleting twice is deleting once; deleting what was just created
      restores the store when the id was new. */
  lemma MemDeleteLaws(s: MemStore, d: Disaster, id: string)
    ensures MemDelete(MemDelete(s, id), id) == MemDelete(s, id)
    ensures d.id !in s ==> MemDelete(MemCreate(s, d).0, d.id) == s
  {
    if d.id !in s {
      assert MemDelete(MemCreate(s, d).0, d.id).Keys == s.Keys;
    }
  }

  // ----- MongoDB -----

  type MongoStore = map<string, DisasterDoc>

  /** repo.ErrNotFound */
  const ErrNotFound: Error := Plain("record not found")

  /** The `_id` InsertOne writes: the document's own, or the one the driver
      generates when the document has none. */
  function InsertKey(d: DisasterDoc, generated: string): string {
    if d.id == "" then generated else d.id
  }

  /** Create: whatever the input says, status "pending" and the creation
      and update times from two clock readings, `created` then `updated`;
      then insert. A driver failure, or an `_id` already taken, is
      returned and stores nothing; otherwise the new id is returned. */
  function MongoCreate(s: MongoStore, d: DisasterDoc, created: int, updated: int, generated: string, fault: Option<Error>): (r: (MongoStore, Result<string>))
    ensures fault.Some? ==> r == (s, Failure(fault.value))
    ensures fault.None? && InsertKey(d, generated) in s ==> r == (s, Failure(DuplicateKey))
    ensures r.1.Success? ==>
              var k := r.1.value;
              && k !in s && k in r.0 && r.0 == s[k := r.0[k]]
              && r.0[k] == d.(id := k, status := StatusPending, createdAt := created, updatedAt := updated)
    ensures r.1.Failure? ==> r.0 == s
  {
    var k := InsertKey(d, generated);
    if fault.Some? then (s, Failure(fault.value))
    else if k in s then (s, Failure(DuplicateKey))
    else (s[k := d.(id := k, status := StatusPending, createdAt := created, updatedAt := updated)], Success(k))
  }

  /** Delete (FindOneAndDelete): ErrNotFound for a missing id, the driver's
      error unchanged, or the record removed. */
  function MongoDelete(s: MongoStore, id: string, fault: Option<Error>): (r: (MongoStore, Outcome))
    ensures fault.Some? ==> r == (s, Fail(fault.value))
    ensures fault.None? && id !in s ==> r == (s, Fail(ErrNotFound))
    ensures r.1.Pass? <==> fault.None? && id in s
    ensures r.1.Pass? ==> r.0 == s - {id}
    ensures r.1.Fail? ==> r.0 == s
  {
    if fault.Some? then (s, Fail(fault.value))
    else if id !in s then (s, Fail(ErrNotFound))
    else (s - {id}, Pass)
  }

  /** GetByID: the record, or the driver's error, which for a missing id is
      mongo.ErrNoDocuments rather than ErrNotFound. */
  function MongoGetByID(s: MongoStore, id: string, fault: Option<Error>): (r: Result<DisasterDoc>)
    ensures r.Success? <==> fault.None? && id in s
    ensures r.Success? ==> r.value == s[id] && r.value in s.Values
    ensures fault.None? && id !in s ==> r == Failure(ErrNoDocuments)
    ensures r.Failure? ==> r.error != ErrNotFound || fault == Some(ErrNotFound)
  {
    if fault.Some? then Failure(fault.value)
    else if id !in s then Failure(ErrNoDocuments)
    else Success(s[id])
  }

  /** UpdateStatus: set any status string and `updated_at`, nothing else;
      ErrNotFound for a missing id. */
  function MongoUpdateStatus(s: MongoStore, id: string, status: string, now: int, fault: Option<Error>): (r: (MongoStore, Outcome))
    ensures fault.Some? ==> r == (s, Fail(fault.value))
    ensures fault.None? && id !in s ==> r == (s, Fail(ErrNotFound))
    ensures r.1.Pass? <==> fault.None? && id in s
    ensures r.1.Pass? ==> r.0.Keys == s.Keys && r.0[id] == s[id].(status := status, updatedAt := now)
    ensures forall k :: k in s && k != id ==> k in r.0 && r.0[k] == s[k]
    ensures r.1.Fail? ==> r.0 == s
  {
    if fault.Some? then (s, Fail(fault.value))
    else if id !in s then (s, Fail(ErrNotFound))
    else (s[id := s[id].(status := status, updatedAt := now)], Pass)
  }

  /** The filter of GetAll: every record for "", else records with that status. */
  predicate Selected(d: DisasterDoc, status: string) {
    status == "" || d.status == status
  }

  /** GetAll: the selected records by id (the driver's order is not
      modelled), or the driver's error. */
  function MongoGetAll(s: MongoStore, status: string, fault: Option<Error>): (r: Result<map<string, DisasterDoc>>)
    ensures fault.Some? <==> r.Failure?
    ensures r.Success? ==> forall k :: k in r.value <==> k in s && Selected(s[k], status)
    ensures r.Success? ==> forall k :: k in r.value ==> r.value[k] == s[k]
  {
    if fault.Some? then Failure(fault.value)
    else Success(map k | k in s && Selected(s[k], status) :: s[k])
  }

  /** GetAll("") is the whole store; every record is found under its own
      status and under no other. */
  lemma GetAllPartitions(s: MongoStore, k: string, status: string)
    requires k in s && status != ""
    ensures MongoGetAll(s, "", None) == Success(s)
    ensures k in MongoGetAll(s, status, None).value <==> s[k].status == status
  {
    var all := MongoGetAll(s, "", None).value;
    assert all.Keys == s.Keys;
    assert forall x :: x in all ==> all[x] == s[x];
    assert all == s;
  }

  /** After a successful UpdateStatus the record is listed under the new
      status. */
  lemma UpdateThenList(s: MongoStore, id: string, status: string, now: int)
    requires id in s && status != ""
    ensures var u := MongoUpdateStatus(s, id, status, now, None).0;
            id in MongoGetAll(u, status, None).value
  {
  }

  // ----- the `_id` as the driver stores it -----

  /** A BSON `_id` value. The stored documents' ids are ObjectIDs (the
      record type's id field is one), given here by their hex strings; a
      filter built from a Go string holds a BSON string. */
  datatype BsonId = ObjectId(hex: string) | BsonString(value: string)

  type BsonStore = map<BsonId, DisasterDoc>

  /** Every `_id` in the collection is an ObjectID. */
  predicate ObjectIdsOnly(s: BsonStore) {
    forall k :: k in s ==> k.ObjectId?
  }

  /** Create as the code is written: insert under an ObjectID `_id` and
      return its hex string (db.PrimitiveToHex). */
  function CreateAsWritten(s: BsonStore, d: DisasterDoc, created: int, updated: int, generated: string, fault: Option<Error>): (r: (BsonStore, Result<string>))
    ensures fault.Some? ==> r == (s, Failure(fault.value))
    ensures fault.None? && ObjectId(InsertKey(d, generated)) in s ==> r == (s, Failure(DuplicateKey))
    ensures r.1.Success? ==>
              && r.1.value == InsertKey(d, generated) && ObjectId(r.1.value) !in s
              && r.0 == s[ObjectId(r.1.value) := d.(id := r.1.value, status := StatusPending, createdAt := created, updatedAt := updated)]
    ensures r.1.Failure? ==> r.0 == s
    ensures ObjectIdsOnly(s) ==> ObjectIdsOnly(r.0)
  {
    var k := InsertKey(d, generated);
    if fault.Some? then (s, Failure(fault.value))
    else if ObjectId(k) in s then (s, Failure(DuplicateKey))
    else (s[ObjectId(k) := d.(id := k, status := StatusPending, createdAt := created, updatedAt := updated)], Success(k))
  }

  /** Delete as the code is written: the filter `{"_id": disasterID}`
      carries the id as a BSON string, which equals no ObjectID. */
  function DeleteAsWritten(s: BsonStore, id: string, fault: Option<Error>): (r: (BsonStore, Outcome))
    ensures fault.Some? ==> r == (s, Fail(fault.value))
    ensures r.1.Pass? <==> fault.None? && BsonString(id) in s
    ensures r.1.Pass? ==> r.0 == s - {BsonString(id)}
    ensures fault.None? && ObjectIdsOnly(s) ==> r == (s, Fail(ErrNotFound))
  {
    if fault.Some? then (s, Fail(fault.value))
    else if BsonString(id) !in s then (s, Fail(ErrNotFound))
    else (s - {BsonString(id)}, Pass)
  }

  /** GetByID as the code is written, with the same string filter. */
  function GetByIDAsWritten(s: BsonStore, id: string, fault: Option<Error>): (r: Result<DisasterDoc>)
    ensures r.Success? <==> fault.None? && BsonString(id) in s
    ensures fault.None? && ObjectIdsOnly(s) ==> r == Failure(ErrNoDocuments)
  {
    if fault.Some? then Failure(fault.value)
    else if BsonString(id) !in s then Failure(ErrNoDocuments)
    else Success(s[BsonString(id)])
  }

  /** UpdateStatus as the code is written, with the same string filter. */
  function UpdateStatusAsWritten(s: BsonStore, id: string, status: string, now: int, fault: Option<Error>): (r: (BsonStore, Outcome))
    ensures r.1.Pass? <==> fault.None? && BsonString(id) in s
    ensures r.1.Fail? ==> r.0 == s
    ensures fault.None? && ObjectIdsOnly(s) ==> r == (s, Fail(ErrNotFound))
  {
    if fault.Some? then (s, Fail(fault.value))
    else if BsonString(id) !in s then (s, Fail(ErrNotFound))
    else (s[BsonString(id) := s[BsonString(id)].(status := status, updatedAt := now)], Pass)
  }

  /** The defect: the id Create returns cannot be used. Deleting, reading or
      updating a record just created, by the id Create returned, reports it
      missing, and the record stays stored unchanged. */
  lemma CreatedIdIsNeverFound(s: BsonStore, d: DisasterDoc, created: int, updated: int, generated: string,
                              status: string, now: int)
    requires ObjectIdsOnly(s)
    requires CreateAsWritten(s, d, created, updated, generated, None).1.Success?
    ensures var (s1, id) := CreateAsWritten(s, d, created, updated, generated, None);
            && ObjectId(id.value) in s1
            && DeleteAsWritten(s1, id.value, None) == (s1, Fail(ErrNotFound))
            && GetByIDAsWritten(s1, id.value, None) == Failure(ErrNoDocuments)
            && UpdateStatusAsWritten(s1, id.value, status, now, None) == (s1, Fail(ErrNotFound))
  {
  }

  /** With the filter matching the `_id` Create wrote (the model's
      MongoStore, keyed by the hex string), deleting a record by the id
      Create returned removes it and restores the store. */
  lemma CreateThenDeleteRestores(s: MongoStore, d: DisasterDoc, created: int, updated: int, generated: string)
    requires MongoCreate(s, d, created, updated, generated, None).1.Success?
    ensures var (s1, id) := MongoCreate(s, d, created, updated, generated, None);
            && id.value in s1
            && MongoGetByID(s1, id.value, None).Success?
            && MongoDelete(s1, id.value, None) == (s, Pass)
  {
    var (s1, id) := MongoCreate(s, d, created, updated, generated, None);
    var k := id.value;
    assert k !in s && s1 == s[k := s1[k]];
    assert (s1 - {k}).Keys == s.Keys;
    assert forall x :: x in s ==> (s1 - {k})[x] == s[x];
    assert s1 - {k} == s;
  }
}
