/** The vector index as a map of tagged points, its paged listing, and the manifest comparison. */
module Manifest {
  import opened Common

  /** A point id is the hash of the embedding space and the chunk hash, taken to be injective in both. */
  datatype PointId = PointId(space: string, hash: string)

  /** The schema admits only 64 hexadecimal digits. */
  type ChunkHash = s: string | |s| == 64
    witness "0000000000000000000000000000000000000000000000000000000000000000"

  datatype Payload = Payload(chunkHash: string, generation: Id)

  datatype ManifestPoint = ManifestPoint(point: PointId, chunkHash: string)

  // ---------- validate_manifest ----------

  function PointIds(points: seq<ManifestPoint>): set<PointId> {
    set p | p in points :: p.point
  }

  function Elements(points: seq<ManifestPoint>): set<ManifestPoint> {
    set p | p in points
  }

  /** The five conditions the validator tests; it raises unless all hold. */
  predicate ValidManifest(expected: seq<ManifestPoint>, actual: seq<ManifestPoint>) {
    expected != [] &&
    |expected| == |actual| &&
    |PointIds(expected)| == |expected| &&
    |PointIds(actual)| == |actual| &&
    Elements(expected) == Elements(actual)
  }

  predicate DistinctIds(points: seq<ManifestPoint>) {
    forall i, j | 0 <= i < j < |points| :: points[i].point != points[j].point
  }

  lemma DistinctIdsSplit(front: seq<ManifestPoint>, last: ManifestPoint)
    ensures DistinctIds(front + [last]) <==> DistinctIds(front) && last.point !in PointIds(front)
  {
    var points := front + [last];
    var n := |front|;
    if last.point in PointIds(front) {
      var p :| p in front && p.point == last.point;
      var i :| 0 <= i < n && front[i] == p;
      assert points[i].point == points[n].point;
    } else {
      assert forall i | 0 <= i < n :: points[i] == front[i] && front[i] in front;
    }
    if DistinctIds(points) {
      assert forall i, j | 0 <= i < j < n :: points[i].point != points[j].point;
    }
  }

  lemma {:induction false} CountIds(points: seq<ManifestPoint>)
    ensures |PointIds(points)| <= |points|
    ensures |PointIds(points)| == |points| <==> DistinctIds(points)
  {
    if points != [] {
      var n := |points| - 1;
      var front, last := points[..n], points[n];
      CountIds(front);
      assert points == front + [last];
      DistinctIdsSplit(front, last);
      assert PointIds(points) == PointIds(front) + {last.point};
    }
  }

  /** Lists whose ids are distinct hold each element once, so equal element sets make equal multisets. */
  lemma {:induction false} DistinctMultiset(points: seq<ManifestPoint>)
    requires DistinctIds(points)
    ensures multiset(points) == multiset(Elements(points))
  {
    if points != [] {
      var n := |points| - 1;
      var front, last := points[..n], points[n];
      assert points == front + [last];
      DistinctIdsSplit(front, last);
      DistinctMultiset(front);
      assert last !in front;
      assert Elements(points) == Elements(front) + {last};
    }
  }

  lemma MultisetElements(a: seq<ManifestPoint>, b: seq<ManifestPoint>)
    requires multiset(a) == multiset(b)
    ensures |a| == |b| && Elements(a) == Elements(b)
  {
    assert |multiset(a)| == |a| && |multiset(b)| == |b|;
    forall p ensures p in a <==> p in b {
      assert p in a <==> p in multiset(a);
    }
  }

  /** The validator accepts exactly the permutations of a non-empty expected list with distinct ids. */
  lemma ValidManifestMeaning(expected: seq<ManifestPoint>, actual: seq<ManifestPoint>)
    ensures ValidManifest(expected, actual) <==>
              expected != [] && DistinctIds(expected) && multiset(expected) == multiset(actual)
  {
    CountIds(expected);
    CountIds(actual);
    if ValidManifest(expected, actual) {
      DistinctMultiset(expected);
      DistinctMultiset(actual);
    }
    if expected != [] && DistinctIds(expected) && multiset(expected) == multiset(actual) {
      MultisetElements(expected, actual);
      assert PointIds(expected) == PointIds(actual) by {
        assert forall p :: p in expected <==> p in Elements(expected);
        assert forall p :: p in actual <==> p in Elements(actual);
      }
    }
  }

  // ---------- the index ----------

  type Index = map<PointId, Payload>

  /** The points of a generation, in the order of the chunks of its run. */
  function Points(space: string, hashes: seq<ChunkHash>, generation: Id): seq<(PointId, Payload)> {
    seq(|hashes|, i requires 0 <= i < |hashes| => (PointId(space, hashes[i]), Payload(hashes[i], generation)))
  }

  function Expected(space: string, hashes: seq<ChunkHash>): seq<ManifestPoint> {
    seq(|hashes|, i requires 0 <= i < |hashes| => ManifestPoint(PointId(space, hashes[i]), hashes[i]))
  }

  /** Later points replace earlier ones with the same id. */
  function Upsert(index: Index, points: seq<(PointId, Payload)>): Index {
    if points == [] then index
    else
      var n := |points| - 1;
      Upsert(index, points[..n])[points[n].0 := points[n].1]
  }

  predicate Tagged(index: Index, p: PointId, generation: Id) {
    p in index && index[p].generation == generation
  }

  /** One complete listing of the points of a generation, in an order of the server's choosing. */
  predicate Listing(index: Index, generation: Id, order: seq<PointId>) {
    (forall i, j | 0 <= i < j < |order| :: order[i] != order[j]) &&
    (forall p | p in order :: Tagged(index, p, generation)) &&
    (forall p | p in index && index[p].generation == generation :: p in order)
  }

  /** What a listing says of the points that carry a chunk hash. */
  function ManifestOf(index: Index, order: seq<PointId>): seq<ManifestPoint> {
    if order == [] then []
    else
      var n := |order| - 1;
      var p := order[n];
      var front := ManifestOf(index, order[..n]);
      if p in index && index[p].chunkHash != "" then front + [ManifestPoint(p, index[p].chunkHash)] else front
  }

  const PAGE_LIMIT := 100

  class QdrantAdapter {
    var points: Index

    constructor ()
      ensures points == map[]
    {
      points := map[];
    }

    method UpsertPoints(batch: seq<(PointId, Payload)>)
      modifies this
      ensures points == Upsert(old(points), batch)
    {
      for i := 0 to |batch|
        invariant points == Upsert(old(points), batch[..i])
      {
        assert batch[..i + 1][..i] == batch[..i];
        points := points[batch[i].0 := batch[i].1];
      }
      assert batch[..|batch|] == batch;
    }

    /** One page of the server's listing from an offset, and the offset of the next page if there is one. */
    method Scroll(generation: Id, order: seq<PointId>, offset: Option<PointId>)
      returns (start: nat, page: seq<PointId>, next: Option<PointId>)
      requires Listing(points, generation, order)
      requires offset.Some? ==> offset.value in order
      ensures start <= |order| && (if offset.None? then start == 0 else start < |order| && order[start] == offset.value)
      ensures if start + PAGE_LIMIT < |order|
              then page == order[start..start + PAGE_LIMIT] && next == Some(order[start + PAGE_LIMIT])
              else page == order[start..] && next == None
    {
      start := 0;
      if offset.Some? {
        while order[start] != offset.value
          invariant start < |order| && offset.value !in order[..start]
          decreases |order| - start
        {
          assert order[..start + 1] == order[..start] + [order[start]];
          assert order == order[..start + 1] + order[start + 1..];
          start := start + 1;
        }
      }
      if start + PAGE_LIMIT < |order| {
        page, next := order[start..start + PAGE_LIMIT], Some(order[start + PAGE_LIMIT]);
      } else {
        page, next := order[start..], None;
      }
    }

    /** However the listing falls into pages, the manifest is the listing, each point once. */
    method FetchManifest(generation: Id, order: seq<PointId>) returns (manifest: seq<ManifestPoint>)
      requires Listing(points, generation, order)
      ensures manifest == ManifestOf(points, order)
      ensures DistinctIds(manifest)
      ensures forall p, hash ::
                ManifestPoint(p, hash) in manifest <==> p in points && points[p] == Payload(hash, generation) && hash != ""
    {
      manifest := [];
      var offset: Option<PointId> := None;
      ghost var seen: nat := 0;
      while true
        invariant seen <= |order| && manifest == ManifestOf(points, order[..seen])
        invariant if offset.None? then seen == 0 else seen < |order| && order[seen] == offset.value
        decreases |order| - seen, offset.None?
      {
        var start, page, next := Scroll(generation, order, offset);
        manifest := ReadPage(manifest, page);
        NextPage(points, order, seen, page);
        seen := seen + |page|;
        offset := next;
        if offset.None? {
          break;
        }
      }
      assert order[..seen] == order;
      ManifestIsTheGeneration(points, generation, order);
    }

    method ReadPage(before: seq<ManifestPoint>, page: seq<PointId>) returns (manifest: seq<ManifestPoint>)
      ensures manifest == before + ManifestOf(points, page)
    {
      manifest := before;
      for i := 0 to |page|
        invariant manifest == before + ManifestOf(points, page[..i])
      {
        assert page[..i + 1][..i] == page[..i];
        if page[i] in points && points[page[i]].chunkHash != "" {
          manifest := manifest + [ManifestPoint(page[i], points[page[i]].chunkHash)];
        }
      }
      assert page[..|page|] == page;
    }
  }

  lemma {:induction false} ManifestOfElements(index: Index, order: seq<PointId>)
    requires forall i, j | 0 <= i < j < |order| :: order[i] != order[j]
    ensures DistinctIds(ManifestOf(index, order))
    ensures forall m :: m in ManifestOf(index, order) <==>
              m.point in order && m.point in index && index[m.point].chunkHash == m.chunkHash && m.chunkHash != ""
  {
    if order != [] {
      var n := |order| - 1;
      ManifestOfElements(index, order[..n]);
      assert order == order[..n] + [order[n]];
    }
  }

  lemma ManifestIsTheGeneration(index: Index, generation: Id, order: seq<PointId>)
    requires Listing(index, generation, order)
    ensures DistinctIds(ManifestOf(index, order))
    ensures forall p, hash ::
              ManifestPoint(p, hash) in ManifestOf(index, order) <==> p in index && index[p] == Payload(hash, generation) && hash != ""
  {
    ManifestOfElements(index, order);
  }

  lemma {:induction false} ManifestOfConcat(index: Index, a: seq<PointId>, b: seq<PointId>)
    ensures ManifestOf(index, a + b) == ManifestOf(index, a) + ManifestOf(index, b)
  {
    if b == [] {
      assert a + b == a;
    } else {
      assert (a + b)[..|a + b| - 1] == a + b[..|b| - 1];
      ManifestOfConcat(index, a, b[..|b| - 1]);
    }
  }

  /** What has been read so far, and the page behind it. */
  lemma NextPage(index: Index, order: seq<PointId>, seen: nat, page: seq<PointId>)
    requires seen + |page| <= |order| && page == order[seen..seen + |page|]
    ensures ManifestOf(index, order[..seen + |page|]) == ManifestOf(index, order[..seen]) + ManifestOf(index, page)
  {
    ManifestOfConcat(index, order[..seen], page);
    assert order[..seen] + page == order[..seen + |page|];
  }
}
