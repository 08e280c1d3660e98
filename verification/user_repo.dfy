/** The user stores: the in-memory map of services/user-service/repo/user.go
    and the MongoDB collection, with its unique index on email, of
    services/user-service/repo/mongodb.go. Both are maps from id to user.
    Map iteration order is not modelled: the lookups that scan the map may
    visit the users in any order. */
module UserRepo {
  import opened Errors
  import opened Domain

  type Store = map<string, User>

  /** The ids of the users with `role`. */
  function WithRole(s: Store, role: string): set<string> {
    set k | k in s && s[k].role == role
  }

  // ----- in memory -----

  /** Create: store under the user's id, replacing whatever was there (no
      email check); return the id with a nil error. */
  function MemCreate(s: Store, u: User): (r: (Store, string))
    ensures r.1 == u.id && u.id in r.0 && r.0[u.id] == u
    ensures forall k :: k != u.id ==> (k in r.0 <==> k in s)
    ensures forall k :: k != u.id && k in s ==> r.0[k] == s[k]
  {
    (s[u.id := u], u.id)
  }

  /** GetByID: the user, or (nil, nil) for a missing id. */
  function MemGetByID(s: Store, id: string): (r: Option<User>)
    ensures r.Some? <==> id in s
    ensures r.Some? ==> r.value == s[id]
  {
    if id in s then Some(s[id]) else None
  }

  /** GetByEmail: some stored user with that email (which one, when several
      share it, depends on the iteration order), or (nil, nil). */
  method MemGetByEmail(s: Store, email: string) returns (r: Option<User>)
    ensures r.Some? ==> r.value in s.Values && r.value.email == email
    ensures r.None? <==> forall k :: k in s ==> s[k].email != email
  {
    var remaining := s.Keys;
    while remaining != {}
      invariant remaining <= s.Keys
      invariant forall k :: k in s && k !in remaining ==> s[k].email != email
      decreases |remaining|
    {
      var k :| k in remaining;
      if s[k].email == email {
        return Some(s[k]);
      }
      remaining := remaining - {k};
    }
    return None;
  }

  /** GetByRole: one entry per stored user whose role matches, in
      iteration order, and no other; the error is always nil. */
  method MemGetByRole(s: Store, role: string) returns (r: seq<User>)
    ensures |r| == |WithRole(s, role)|
    ensures forall u :: u in r ==> u in s.Values && u.role == role
    ensures forall k :: k in WithRole(s, role) ==> s[k] in r
  {
    r := [];
    var remaining := s.Keys;
    ghost var done: set<string> := {};
    while remaining != {}
      invariant remaining <= s.Keys
      invariant done == set k | k in s && k !in remaining && s[k].role == role
      invariant |r| == |done|
      invariant forall u :: u in r ==> u in s.Values && u.role == role
      invariant forall k :: k in done ==> s[k] in r
      decreases |remaining|
    {
      var k :| k in remaining;
      if s[k].role == role {
        assert k !in done;
        done := done + {k};
        r := r + [s[k]];
      }
      remaining := remaining - {k};
    }
    assert done == WithRole(s, role);
  }

  // ----- MongoDB -----

  /** The unique index on email: no two stored users share one. */
  ghost predicate UniqueEmails(s: Store) {
    forall a, b :: a in s && b in s && s[a].email == s[b].email ==> a == b
  }

  predicate EmailTaken(s: Store, email: string) {
    exists k :: k in s && s[k].email == email
  }

  const ErrResourceConflict: Error := Plain("resource already exists")
  const ErrNoResourcesFound: Error := Plain("no resources found")

  /** Create: the creation and update times set from two clock readings,
      `created` then `updated`, then InsertOne under the user's
      id or a generated one. A duplicate key (the email or the id already
      stored, or a duplicate-key error from the driver) is
      ErrResourceConflict; any other driver error is returned unchanged;
      on success the hex id is returned. A failure stores nothing. */
  function MongoCreate(s: Store, u: User, created: int, updated: int, generated: string, fault: Option<Error>): (r: (Store, Result<string>))
    ensures fault == Some(DuplicateKey) ==> r == (s, Failure(ErrResourceConflict))
    ensures fault.Some? && fault != Some(DuplicateKey) ==> r == (s, Failure(fault.value))
    ensures fault.None? && EmailTaken(s, u.email) ==> r == (s, Failure(ErrResourceConflict))
    ensures r.1.Success? ==>
              var k := r.1.value;
              && k !in s && k in r.0 && r.0 == s[k := r.0[k]]
              && r.0[k] == u.(id := k, createdAt := created, updatedAt := updated)
    ensures r.1.Failure? ==> r.0 == s
  {
    var k := if u.id == "" then generated else u.id;
    if fault == Some(DuplicateKey) then (s, Failure(ErrResourceConflict))
    else if fault.Some? then (s, Failure(fault.value))
    else if EmailTaken(s, u.email) || k in s then (s, Failure(ErrResourceConflict))
    else (s[k := u.(id := k, createdAt := created, updatedAt := updated)], Success(k))
  }

  /** Create keeps emails unique. */
  lemma MongoCreateKeepsEmailsUnique(s: Store, u: User, created: int, updated: int, generated: string, fault: Option<Error>)
    requires UniqueEmails(s)
    ensures UniqueEmails(MongoCreate(s, u, created, updated, generated, fault).0)
  {
    var r := MongoCreate(s, u, created, updated, generated, fault);
    if r.1.Success? {
      assert !EmailTaken(s, u.email);
    }
  }

  /** GetByID: the user, or the driver's error unchanged (mongo.ErrNoDocuments
      for a missing id). */
  function MongoGetByID(s: Store, id: string, fault: Option<Error>): (r: Result<User>)
    ensures r.Success? <==> fault.None? && id in s
    ensures r.Success? ==> r.value == s[id]
    ensures fault.None? && id !in s ==> r == Failure(ErrNoDocuments)
    ensures fault.Some? ==> r == Failure(fault.value)
  {
    if fault.Some? then Failure(fault.value)
    else if id !in s then Failure(ErrNoDocuments)
    else Success(s[id])
  }

  /** GetByEmail: the user with that email; no match (mongo.ErrNoDocuments)
      becomes ErrNoResourcesFound, any other driver error is returned
      unchanged. */
  method MongoGetByEmail(s: Store, email: string, fault: Option<Error>) returns (r: Result<User>)
    ensures fault.Some? && fault.value != ErrNoDocuments ==> r == Failure(fault.value)
    ensures fault == Some(ErrNoDocuments) ==> r == Failure(ErrNoResourcesFound)
    ensures fault.None? ==> (r.Success? <==> EmailTaken(s, email))
    ensures fault.None? && r.Failure? ==> r.error == ErrNoResourcesFound
    ensures r.Success? ==> r.value in s.Values && r.value.email == email
    ensures r.Success? && UniqueEmails(s) ==> forall k :: k in s && s[k].email == email ==> r.value == s[k]
  {
    if fault.Some? {
      return if fault.value == ErrNoDocuments then Failure(ErrNoResourcesFound) else Failure(fault.value);
    }
    var found := MemGetByEmail(s, email);
    if found.None? {
      return Failure(ErrNoResourcesFound);
    }
    return Success(found.value);
  }

  /** GetAllByRole: exactly the users whose role matches, or the driver's
      error (at the query or while reading the cursor). */
  method MongoGetAllByRole(s: Store, role: string, fault: Option<Error>) returns (r: Result<seq<User>>)
    ensures fault.Some? ==> r == Failure(fault.value)
    ensures fault.None? ==> r.Success?
    ensures r.Success? ==> |r.value| == |WithRole(s, role)|
    ensures r.Success? ==> forall u :: u in r.value ==> u in s.Values && u.role == role
    ensures r.Success? ==> forall k :: k in WithRole(s, role) ==> s[k] in r.value
  {
    if fault.Some? {
      return Failure(fault.value);
    }
    var users := MemGetByRole(s, role);
    return Success(users);
  }
}
