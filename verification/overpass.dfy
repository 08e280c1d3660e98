/** The resource lookup of services/resource-service/service/overpass.go:
    the Overpass reply's elements become resources, and SaveResources runs
    lookup and store under a retry policy. The HTTP exchange is a
    parameter (transport error, status code and decoded body); the query
    text is not modelled. */
module Overpass {
  import opened Errors
  import opened Domain
  import Retry
  import ResourceRepo

  datatype Center = Center(lat: Float, lon: Float)
  datatype Tags = Tags(name: string, amenity: string)

  /** One element of the reply; `center` and `tags` are `None` for nil pointers. */
  datatype Element = Element(kind: string, id: int, lat: Float, lon: Float, center: Option<Center>, tags: Option<Tags>)

  /** An element with coordinates: a node, or anything with a center. */
  predicate Located(e: Element) {
    e.kind == "node" || e.center.Some?
  }

  /** A located element without tags: reading its name dereferences a nil
      pointer, which panics. */
  predicate Panics(e: Element) {
    Located(e) && e.tags.None?
  }

  /** The resource a located, tagged element becomes: its name and amenity,
      and a GeoJSON point with longitude first. */
  function ToResource(e: Element): (r: Resource)
    requires Located(e) && e.tags.Some?
    ensures r.name == e.tags.value.name && r.amenityType == e.tags.value.amenity
    ensures r.location.Some? && r.location.value.kind == "Point" && |r.location.value.coordinates| == 2
    ensures e.kind == "node" ==> r.location.value.coordinates == [e.lon, e.lat]
    ensures e.kind != "node" ==> r.location.value.coordinates == [e.center.value.lon, e.center.value.lat]
  {
    var lat := if e.kind == "node" then e.lat else e.center.value.lat;
    var lon := if e.kind == "node" then e.lon else e.center.value.lon;
    var amenity := if e.tags.Some? then e.tags.value.amenity else "";
    Resource("", e.tags.value.name, amenity, Some(Location("Point", [lon, lat])), 0, 0)
  }

  /** The conversion loop's outcome: the resources, or a panic at the
      element with the given index. */
  datatype Conversion = Converted(resources: seq<Resource>) | NilTags(index: nat)

  /** Reference: the conversion of a list, one element at a time. */
  function Expected(elements: seq<Element>): (c: Conversion)
    decreases |elements|
  {
    if |elements| == 0 then Converted([])
    else
      var n := |elements| - 1;
      var e := elements[n];
      match Expected(elements[..n])
      case NilTags(i) => NilTags(i)
      case Converted(rs) =>
        if Panics(e) then NilTags(n)
        else if Located(e) then Converted(rs + [ToResource(e)])
        else Converted(rs)
  }

  /** The conversion loop: skip elements without coordinates, convert the
      others in order. */
  method Convert(elements: seq<Element>) returns (c: Conversion)
    ensures c == Expected(elements)
  {
    var resources: seq<Resource> := [];
    var i := 0;
    while i < |elements|
      invariant 0 <= i <= |elements|
      invariant Expected(elements[..i]) == Converted(resources)
    {
      var e := elements[i];
      assert elements[..i + 1][..i] == elements[..i];
      if !Located(e) {
        i := i + 1;
        continue;
      }
      if e.tags.None? {
        NilTagsSticks(elements, i + 1);
        return NilTags(i);
      }
      resources := resources + [ToResource(e)];
      i := i + 1;
    }
    assert elements[..i] == elements;
    return Converted(resources);
  }

  /** Once a prefix panics, so does every longer list, at the same element. */
  lemma {:induction false} NilTagsSticks(elements: seq<Element>, m: nat)
    requires m <= |elements| && Expected(elements[..m]).NilTags?
    decreases |elements| - m
    ensures Expected(elements) == Expected(elements[..m])
  {
    if m < |elements| {
      assert elements[..m + 1][..m] == elements[..m];
      NilTagsSticks(elements, m + 1);
    } else {
      assert elements[..m] == elements;
    }
  }

  /** The conversion panics exactly when some element panics, and then at
      the first such element. */
  lemma {:induction false} PanicsAtFirstNilTags(elements: seq<Element>)
    decreases |elements|
    ensures Expected(elements).Converted? <==> forall j :: 0 <= j < |elements| ==> !Panics(elements[j])
    ensures Expected(elements).NilTags? ==>
              var i := Expected(elements).index;
              i < |elements| && Panics(elements[i]) && forall j :: 0 <= j < i ==> !Panics(elements[j])
  {
    if |elements| > 0 {
      var n := |elements| - 1;
      PanicsAtFirstNilTags(elements[..n]);
      assert forall j :: 0 <= j < n ==> elements[..n][j] == elements[j];
    }
  }

  /** Without panics, each element yields at most one resource and the
      output keeps input order: converting a concatenation is
      concatenating the conversions. */
  lemma {:induction false} ConvertConcat(a: seq<Element>, b: seq<Element>)
    requires Expected(a).Converted? && Expected(b).Converted?
    decreases |b|
    ensures Expected(a + b) == Converted(Expected(a).resources + Expected(b).resources)
  {
    if |b| == 0 {
      assert a + b == a;
    } else {
      var n := |b| - 1;
      assert (a + b)[..|a| + n] == a + b[..n];
      PanicsAtFirstNilTags(b);
      PanicsAtFirstNilTags(b[..n]);
      assert forall j :: 0 <= j < n ==> b[..n][j] == b[j];
      ConvertConcat(a, b[..n]);
    }
  }

  /** A single element yields its resource when located, nothing otherwise. */
  lemma ConvertOne(e: Element)
    requires !Panics(e)
    ensures Expected([e]) == Converted(if Located(e) then [ToResource(e)] else [])
  {
    assert [e][..0] == [];
  }

  /** Without panics, no more resources than elements. */
  lemma {:induction false} ConvertBound(elements: seq<Element>)
    requires Expected(elements).Converted?
    decreases |elements|
    ensures |Expected(elements).resources| <= |elements|
  {
    if |elements| > 0 {
      ConvertBound(elements[..|elements| - 1]);
    }
  }

  // ----- the lookup -----

  /** The HTTP exchange: transport error, status code and decoded body. */
  datatype Reply = Reply(transport: Outcome, status: int, decoded: Result<seq<Element>>)

  datatype Lookup = Found(resources: seq<Resource>) | LookupFailed(error: Error) | Panicked(index: nat)

  /** findResourcesWithinRadius, after the request is sent. */
  method FindResources(reply: Reply) returns (l: Lookup)
    ensures reply.transport.Fail? ==> l == LookupFailed(Wrapped("failed to send request to Overpass API", reply.transport.error))
    ensures reply.transport.Pass? && reply.status != 200 ==> l == LookupFailed(HttpStatus(reply.status))
    ensures reply.transport.Pass? && reply.status == 200 && reply.decoded.Failure? ==>
              l == LookupFailed(Wrapped("failed to decode Overpass API response", reply.decoded.error))
    ensures l.Found? <==> reply.transport.Pass? && reply.status == 200 && reply.decoded.Success?
                          && Expected(reply.decoded.value).Converted?
    ensures l.Found? ==> l.resources == Expected(reply.decoded.value).resources
  {
    if reply.transport.Fail? {
      return LookupFailed(Wrapped("failed to send request to Overpass API", reply.transport.error));
    }
    if reply.status != 200 {
      return LookupFailed(HttpStatus(reply.status));
    }
    if reply.decoded.Failure? {
      return LookupFailed(Wrapped("failed to decode Overpass API response", reply.decoded.error));
    }
    var c := Convert(reply.decoded.value);
    match c
    case Converted(rs) => return Found(rs);
    case NilTags(i) => return Panicked(i);
  }

  // ----- SaveResources -----

  function SaveRetry(): (c: Retry.RetryConfig)
    ensures c.maxAttempts == 3 && c.initialDelay == 100 * Millisecond
    ensures c.maxDelay == 5 * Second && c.backoffFactor == 2 && c.jitter
  {
    Retry.RetryConfig(3, 100 * Millisecond, 5 * Second, 2, true)
  }

  /** What each attempt meets: the lookup's result (a lookup that panics
      ends the process and is not an input here), the bulk write's outcome,
      the positions of its duplicate-key failures and the clock; and the
      context. */
  datatype SaveOracle = SaveOracle(
    lookups: nat -> Result<seq<Resource>>,
    writes: nat -> Outcome,
    skipped: nat -> set<nat>,
    clock: nat -> int,
    ctx: Retry.Oracle)

  /** Attempt k: look up again, then AddResources. */
  function Attempt(s: ResourceRepo.Store, o: SaveOracle, k: nat): (ResourceRepo.Store, Outcome) {
    match o.lookups(k)
    case Failure(e) => (s, Fail(e))
    case Success(rs) => ResourceRepo.AddResources(s, rs, o.clock(k), o.writes(k), o.skipped(k))
  }

  /** The store after attempts 1..n. */
  function Replay(s: ResourceRepo.Store, o: SaveOracle, n: nat): ResourceRepo.Store
    decreases n
  {
    if n == 0 then s else Attempt(Replay(s, o, n - 1), o, n).0
  }

  /** The outcome of attempt k, on the store the earlier attempts left. */
  function AttemptOutcome(s: ResourceRepo.Store, o: SaveOracle): nat -> Outcome {
    (k: nat) => if k == 0 then Pass else Attempt(Replay(s, o, k - 1), o, k).1
  }

  datatype Saved = Saved(store: ResourceRepo.Store, run: Retry.Run)

  /** SaveResources: lookup and store, retried as a whole. */
  function SaveResources(s: ResourceRepo.Store, o: SaveOracle): (r: Saved)
    ensures r.run.calls <= 3
  {
    var run := Retry.RetryWithBackoff(Some(SaveRetry()), AttemptOutcome(s, o), o.ctx);
    Saved(Replay(s, o, run.calls), run)
  }

  /** A failed attempt leaves the store as it was. */
  lemma FailedAttemptWritesNothing(s: ResourceRepo.Store, o: SaveOracle, k: nat)
    requires Attempt(s, o, k).1.Fail?
    ensures Attempt(s, o, k).0 == s
  {
  }

  /** Failed attempts before attempt n leave the store untouched. */
  lemma {:induction false} ReplayOverFailures(s: ResourceRepo.Store, o: SaveOracle, n: nat)
    requires forall j :: 1 <= j <= n ==> AttemptOutcome(s, o)(j).Fail?
    ensures Replay(s, o, n) == s
    decreases n
  {
    if n > 0 {
      ReplayOverFailures(s, o, n - 1);
      assert AttemptOutcome(s, o)(n) == Attempt(Replay(s, o, n - 1), o, n).1;
      FailedAttemptWritesNothing(Replay(s, o, n - 1), o, n);
    }
  }

  /** Only the successful last attempt writes: a saved run leaves exactly
      what AddResources of that attempt's lookup leaves; a failed run
      leaves the store unchanged. */
  lemma SaveWritesOnlyOnSuccess(s: ResourceRepo.Store, o: SaveOracle)
    ensures var r := SaveResources(s, o);
            && (r.run.result.Fail? ==> r.store == s)
            && (r.run.result.Pass? ==>
                  && r.run.calls >= 1 && o.lookups(r.run.calls).Success?
                  && r.store == ResourceRepo.AddResources(s, o.lookups(r.run.calls).value,
                                                          o.clock(r.run.calls), o.writes(r.run.calls),
                                                          o.skipped(r.run.calls)).0)
  {
    var cfg := SaveRetry();
    var fn := AttemptOutcome(s, o);
    var run := Retry.Loop(cfg, fn, o.ctx, 1, cfg.initialDelay);
    assert SaveResources(s, o).run == run;
    Retry.LoopPrefix(cfg, fn, o.ctx, 1, cfg.initialDelay);
    Retry.LoopResult(cfg, fn, o.ctx, 1, cfg.initialDelay);
    var last := run.calls;
    assert Retry.LastCall(1, run) == last;
    if last >= 1 {
      forall j | 1 <= j <= last - 1 ensures fn(j).Fail? {
        assert Retry.Continued(fn, o.ctx, j);
      }
      ReplayOverFailures(s, o, last - 1);
      if run.result.Fail? {
        if run.result == Fail(RetryCancelled(false, o.ctx.ctxErr)) {
          assert Retry.Continued(fn, o.ctx, last);
        }
        assert fn(last).Fail?;
        FailedAttemptWritesNothing(s, o, last);
      }
    }
  }
}
