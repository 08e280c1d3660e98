/** The resource store of services/resource-service/repo/mongodb.go:
    AddResources builds one upsert per resource, keyed by (name,
    amenity_type), and sends them in one bulk write. The collection is a
    map from that key to the stored document, so at most one document
    exists per key. The bulk write's outcome is a parameter, with the
    positions of the upserts the driver reports as duplicate-key failures;
    a write that fails with anything but a duplicate key changes nothing. */
module ResourceRepo {
  import opened Errors
  import opened Domain

  /** A stored resource document. */
  datatype Stored = Stored(name: string, amenityType: string, location: Option<Location>, createdAt: int, updatedAt: int)

  type Key = (string, string)
  type Store = map<Key, Stored>

  /** One UpdateOne write model: filter, the `$set` fields, the
      `$setOnInsert` creation time and the upsert flag. */
  datatype UpsertOp = UpsertOp(
    filter: Key,
    setName: string, setAmenityType: string, setLocation: Option<Location>, setUpdatedAt: int,
    setOnInsertCreatedAt: int,
    upsert: bool)

  function KeyOf(r: Resource): Key {
    (r.name, r.amenityType)
  }

  /** The upsert for one resource. */
  function OpFor(r: Resource, now: int): UpsertOp {
    UpsertOp(KeyOf(r), r.name, r.amenityType, r.location, now, now, true)
  }

  /** The write models of one call: one upsert per resource, in input
      order, all stamped with the same `now`. */
  function BuildOps(resources: seq<Resource>, now: int): (ops: seq<UpsertOp>)
    ensures |ops| == |resources|
    ensures forall i :: 0 <= i < |ops| ==>
              && ops[i].filter == KeyOf(resources[i]) && ops[i].upsert
              && ops[i].setName == resources[i].name && ops[i].setAmenityType == resources[i].amenityType
              && ops[i].setLocation == resources[i].location
              && ops[i].setUpdatedAt == now && ops[i].setOnInsertCreatedAt == now
  {
    seq(|resources|, i requires 0 <= i < |resources| => OpFor(resources[i], now))
  }

  /** One UpdateOne: update the matching document's `$set` fields, or, with
      upsert, insert a document that also gets the `$setOnInsert` field. */
  function Apply(s: Store, op: UpsertOp): (r: Store)
    ensures forall k :: k != op.filter ==> (k in r <==> k in s)
    ensures forall k :: k != op.filter && k in s ==> r[k] == s[k]
    ensures op.upsert || op.filter in s ==> op.filter in r
  {
    if op.filter in s then
      s[op.filter := s[op.filter].(name := op.setName, amenityType := op.setAmenityType,
                                   location := op.setLocation, updatedAt := op.setUpdatedAt)]
    else if op.upsert then
      s[op.filter := Stored(op.setName, op.setAmenityType, op.setLocation, op.setOnInsertCreatedAt, op.setUpdatedAt)]
    else s
  }

  /** The write models applied one after the other. */
  function ApplyAll(s: Store, ops: seq<UpsertOp>): Store
    decreases |ops|
  {
    if |ops| == 0 then s else Apply(ApplyAll(s, ops[..|ops| - 1]), ops[|ops| - 1])
  }

  /** The resources whose upserts an unordered bulk write applied: all but
      those at the positions in `skipped`, in input order. */
  function Surviving(resources: seq<Resource>, skipped: set<nat>): (w: seq<Resource>)
    ensures |w| <= |resources|
    ensures forall x :: x in w ==> x in resources
    ensures (forall i :: 0 <= i < |resources| ==> i !in skipped) ==> w == resources
    decreases |resources|
  {
    if |resources| == 0 then []
    else
      var n := |resources| - 1;
      var init := Surviving(resources[..n], skipped);
      assert resources == resources[..n] + [resources[n]];
      init + (if n in skipped then [] else [resources[n]])
  }

  /** How many of the positions below `n` are not skipped. */
  function Kept(n: nat, skipped: set<nat>): (k: nat)
    ensures k <= n
  {
    if n == 0 then 0 else Kept(n - 1, skipped) + (if n - 1 in skipped then 0 else 1)
  }

  /** Kept grows with the bound. */
  lemma {:induction false} KeptMonotone(i: nat, j: nat, skipped: set<nat>)
    requires i <= j
    ensures Kept(i, skipped) <= Kept(j, skipped)
    ensures i !in skipped && i < j ==> Kept(i, skipped) < Kept(j, skipped)
    decreases j
  {
    if i < j {
      KeptMonotone(i, j - 1, skipped);
    }
  }

  /** There are as many surviving upserts as unskipped positions. */
  lemma {:induction false} SurvivingCount(resources: seq<Resource>, skipped: set<nat>)
    ensures |Surviving(resources, skipped)| == Kept(|resources|, skipped)
    decreases |resources|
  {
    if |resources| > 0 {
      var n := |resources| - 1;
      SurvivingCount(resources[..n], skipped);
    }
  }

  /** The resource at an unskipped position `i` survives, at the slot that
      counts the unskipped positions before it; with KeptMonotone, the
      survivors keep list order. */
  lemma {:induction false} SurvivingAt(resources: seq<Resource>, skipped: set<nat>, i: nat)
    requires i < |resources| && i !in skipped
    ensures Kept(i, skipped) < |Surviving(resources, skipped)|
    ensures Surviving(resources, skipped)[Kept(i, skipped)] == resources[i]
    decreases |resources|
  {
    var n := |resources| - 1;
    var init := resources[..n];
    var w0 := Surviving(init, skipped);
    var w := Surviving(resources, skipped);
    SurvivingCount(init, skipped);
    assert w == w0 + (if n in skipped then [] else [resources[n]]);
    if i < n {
      SurvivingAt(init, skipped, i);
      assert init[i] == resources[i];
      assert w[Kept(i, skipped)] == w0[Kept(i, skipped)];
    } else {
      assert Kept(n, skipped) == |w0|;
    }
  }

  /** The surviving upserts are exactly the unskipped ones: as many as
      unskipped positions, and every unskipped resource among them. */
  lemma {:induction false} SurvivingPositions(resources: seq<Resource>, skipped: set<nat>)
    ensures |Surviving(resources, skipped)| == Kept(|resources|, skipped)
    ensures forall i :: 0 <= i < |resources| && i !in skipped ==> resources[i] in Surviving(resources, skipped)
  {
    SurvivingCount(resources, skipped);
    forall i | 0 <= i < |resources| && i !in skipped
      ensures resources[i] in Surviving(resources, skipped)
    {
      SurvivingAt(resources, skipped, i);
    }
  }

  /** The resources a call writes: all of them after a clean bulk write,
      the surviving ones after a swallowed duplicate-key error. */
  function Written(resources: seq<Resource>, write: Outcome, skipped: set<nat>): seq<Resource> {
    if write.Pass? then resources else Surviving(resources, skipped)
  }

  /** AddResources: an empty list is nil without a write; a duplicate-key
      error is swallowed, and the driver has applied every upsert but the
      failing ones; any other write error is wrapped and returned.
      `skipped` holds the positions of the failing upserts. */
  function AddResources(s: Store, resources: seq<Resource>, now: int, write: Outcome, skipped: set<nat>): (r: (Store, Outcome))
    ensures |resources| == 0 ==> r == (s, Pass)
    ensures r.1.Pass? <==> write.Pass? || write == Fail(DuplicateKey) || |resources| == 0
    ensures r.1.Fail? ==> r == (s, Fail(Wrapped("bulk write failed", write.error)))
    ensures |resources| > 0 && write.Pass? ==> r.0 == ApplyAll(s, BuildOps(resources, now))
    ensures |resources| > 0 && write == Fail(DuplicateKey) ==>
              r.0 == ApplyAll(s, BuildOps(Surviving(resources, skipped), now))
  {
    if |resources| == 0 then (s, Pass)
    else if write.Pass? then (ApplyAll(s, BuildOps(resources, now)), Pass)
    else if write == Fail(DuplicateKey) then (ApplyAll(s, BuildOps(Surviving(resources, skipped), now)), Pass)
    else (s, Fail(Wrapped("bulk write failed", write.error)))
  }

  // ----- what a successful call leaves behind -----

  /** The keys of a list of resources. */
  function Keys(resources: seq<Resource>): set<Key> {
    set i | 0 <= i < |resources| :: KeyOf(resources[i])
  }

  /** Only listed keys can be written. */
  lemma KeysOfSubset(a: seq<Resource>, b: seq<Resource>)
    requires forall x :: x in a ==> x in b
    ensures Keys(a) <= Keys(b)
  {
    forall k | k in Keys(a) ensures k in Keys(b) {
      var i :| 0 <= i < |a| && KeyOf(a[i]) == k;
      assert a[i] in b;
      var j :| 0 <= j < |b| && b[j] == a[i];
      assert KeyOf(b[j]) == k;
    }
  }

  /** The location of the last resource with key `k`. */
  function LastLocation(resources: seq<Resource>, k: Key): Option<Location>
    decreases |resources|
  {
    if |resources| == 0 then None
    else if KeyOf(resources[|resources| - 1]) == k then resources[|resources| - 1].location
    else LastLocation(resources[..|resources| - 1], k)
  }

  /** Reference: every key of the list holds its last location and `now`
      as update time, keeping an existing document's creation time; every
      other document is untouched. */
  ghost function Upserted(s: Store, resources: seq<Resource>, now: int): Store {
    map k | k in s.Keys + Keys(resources) ::
      if k in Keys(resources)
      then Stored(k.0, k.1, LastLocation(resources, k), if k in s then s[k].createdAt else now, now)
      else s[k]
  }

  lemma BuildOpsPrefix(resources: seq<Resource>, now: int)
    requires |resources| > 0
    ensures BuildOps(resources, now)[..|resources| - 1] == BuildOps(resources[..|resources| - 1], now)
  {
  }

  lemma KeysSnoc(resources: seq<Resource>)
    requires |resources| > 0
    ensures Keys(resources) == Keys(resources[..|resources| - 1]) + {KeyOf(resources[|resources| - 1])}
  {
    var n := |resources| - 1;
    var init := resources[..n];
    forall k | k in Keys(resources) ensures k in Keys(init) + {KeyOf(resources[n])} {
      var i :| 0 <= i < |resources| && KeyOf(resources[i]) == k;
      if i < n { assert KeyOf(init[i]) == k; }
    }
    forall k | k in Keys(init) ensures k in Keys(resources) {
      var i :| 0 <= i < |init| && KeyOf(init[i]) == k;
      assert KeyOf(resources[i]) == k;
    }
  }

  /** The reference grows by one upsert per appended resource. */
  lemma UpsertedSnoc(s: Store, init: seq<Resource>, last: Resource, now: int)
    ensures Upserted(s, init + [last], now) == Apply(Upserted(s, init, now), OpFor(last, now))
  {
    var resources := init + [last];
    assert resources[..|init|] == init;
    KeysSnoc(resources);
    var after := Apply(Upserted(s, init, now), OpFor(last, now));
    var want := Upserted(s, resources, now);
    assert after.Keys == want.Keys;
    forall k | k in want ensures after[k] == want[k] {
      UpsertedSnocAt(s, init, last, now, k);
    }
  }

  lemma UpsertedSnocAt(s: Store, init: seq<Resource>, last: Resource, now: int, k: Key)
    requires Keys(init + [last]) == Keys(init) + {KeyOf(last)}
    requires k in s.Keys + Keys(init + [last])
    ensures var after := Apply(Upserted(s, init, now), OpFor(last, now));
            k in after && after[k] == Upserted(s, init + [last], now)[k]
  {
    var resources := init + [last];
    assert resources[..|init|] == init;
    if k != KeyOf(last) {
      assert LastLocation(resources, k) == LastLocation(init, k);
    }
  }

  /** The bulk write of one call does what the reference says. */
  lemma {:induction false} ApplyAllIsUpserted(s: Store, resources: seq<Resource>, now: int)
    ensures ApplyAll(s, BuildOps(resources, now)) == Upserted(s, resources, now)
    decreases |resources|
  {
    if |resources| > 0 {
      var n := |resources| - 1;
      var ops := BuildOps(resources, now);
      BuildOpsPrefix(resources, now);
      assert ops[n] == OpFor(resources[n], now);
      ApplyAllIsUpserted(s, resources[..n], now);
      UpsertedSnoc(s, resources[..n], resources[n], now);
      assert resources[..n] + [resources[n]] == resources;
    } else {
      assert Keys(resources) == {};
      assert Upserted(s, resources, now) == s;
    }
  }

  /** Adding the same list twice leaves the same keys, locations and
      creation times as adding it once; only the update time of the
      listed keys moves to the second call's `now`. */
  lemma AddTwiceIsAddOnce(s: Store, resources: seq<Resource>, t1: int, t2: int)
    ensures var once := AddResources(s, resources, t1, Pass, {}).0;
            var twice := AddResources(once, resources, t2, Pass, {}).0;
            && twice.Keys == once.Keys
            && forall k :: k in once ==>
                 twice[k] == once[k].(updatedAt := if k in Keys(resources) then t2 else once[k].updatedAt)
  {
    if |resources| > 0 {
      ApplyAllIsUpserted(s, resources, t1);
      var once := Upserted(s, resources, t1);
      ApplyAllIsUpserted(once, resources, t2);
    }
  }

  /** Every key a successful call writes is stored afterwards, with its
      last written location; nothing else changes. After a clean write that
      is every listed key; after a swallowed duplicate-key error it is the
      keys of the surviving upserts, all of them listed. */
  lemma AddStoresEveryKey(s: Store, resources: seq<Resource>, now: int, write: Outcome, skipped: set<nat>)
    requires AddResources(s, resources, now, write, skipped).1.Pass?
    ensures var after := AddResources(s, resources, now, write, skipped).0;
            var written := Written(resources, write, skipped);
            && (write.Pass? ==> written == resources)
            && Keys(written) <= Keys(resources)
            && after.Keys == s.Keys + Keys(written)
            && (forall k :: k in Keys(written) ==> after[k].location == LastLocation(written, k) && after[k].updatedAt == now)
            && (forall k :: k in s && k !in Keys(written) ==> after[k] == s[k])
  {
    var written := Written(resources, write, skipped);
    KeysOfSubset(written, resources);
    ApplyAllIsUpserted(s, written, now);
    if |resources| == 0 {
      assert written == [];
      assert Keys(written) == {};
    }
  }
}
