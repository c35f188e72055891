/** The `QdrantStorage` wrapper: it makes sure its collection exists, turns
    three index-aligned lists into points for an upsert, and shapes the
    store's ranked search hits into an ordered context list and a set of
    sources. */
module VectorDb {
  import opened Wrappers
  import opened Qdrant

  /** The defaults of the wrapper's constructor and of `search`. */
  const DefaultCollection: string := "docs"
  const DefaultDim: nat := 3072
  const DefaultTopK: int := 5

  // ---------------------------------------------------------------------
  // Point assembly (add_vectors)
  // ---------------------------------------------------------------------

  /** Why building the point list stops: `vectors[i]` is out of range,
      `payloads` is the default `None` and cannot be indexed, or
      `payloads[i]` is out of range. */
  datatype AssemblyError =
    | VectorIndexOutOfRange(index: nat)
    | PayloadsNotSubscriptable
    | PayloadIndexOutOfRange(index: nat)

  /** The point for index `i`, reading `ids[i]`, `vectors[i]` and
      `payloads[i]` in that order; the first read that fails decides the
      error. */
  function PointAt(ids: seq<PointId>, vectors: seq<Vector>, payloads: Option<seq<Payload>>, i: nat)
    : (r: Result<Point, AssemblyError>)
    requires i < |ids|
    ensures r.Ok? <==> i < |vectors| && payloads.Some? && i < |payloads.value|
    ensures r.Ok? ==> r.value.id == ids[i] && r.value.vector == vectors[i] && r.value.payload == payloads.value[i]
    ensures |vectors| <= i ==> r == Err(VectorIndexOutOfRange(i))
  {
    if |vectors| <= i then Err(VectorIndexOutOfRange(i))
    else match payloads
      case None => Err(PayloadsNotSubscriptable)
      case Some(ps) =>
        if |ps| <= i then Err(PayloadIndexOutOfRange(i))
        else Ok(Point(ids[i], vectors[i], ps[i]))
  }

  /** The points for indices `i`, `i + 1`, ..., `|ids| - 1`, built in
      order and abandoned at the first index whose point cannot be built. */
  function BuildFrom(ids: seq<PointId>, vectors: seq<Vector>, payloads: Option<seq<Payload>>, i: nat)
    : (r: Result<seq<Point>, AssemblyError>)
    requires i <= |ids|
    ensures r.Ok? ==> |r.value| == |ids| - i
    ensures r.Ok? ==> forall j :: 0 <= j < |r.value| ==> r.value[j].id == ids[i + j]
    decreases |ids| - i
  {
    if i == |ids| then Ok([])
    else match PointAt(ids, vectors, payloads, i)
      case Err(e) => Err(e)
      case Ok(p) =>
        match BuildFrom(ids, vectors, payloads, i + 1)
        case Err(e) => Err(e)
        case Ok(rest) => Ok([p] + rest)
  }

  /** The point list of `add_vectors`, one point per id. */
  function BuildPoints(ids: seq<PointId>, vectors: seq<Vector>, payloads: Option<seq<Payload>>)
    : (r: Result<seq<Point>, AssemblyError>)
    ensures r.Ok? ==> |r.value| == |ids|
    ensures r.Ok? ==> forall i :: 0 <= i < |r.value| ==> r.value[i].id == ids[i]
  {
    BuildFrom(ids, vectors, payloads, 0)
  }

  /** The lists are long enough for every id to find its vector and payload. */
  predicate Fits(ids: seq<PointId>, vectors: seq<Vector>, payloads: Option<seq<Payload>>) {
    |ids| <= |vectors| && (|ids| == 0 || (payloads.Some? && |ids| <= |payloads.value|))
  }

  lemma {:induction false} BuildFromSucceeds(ids: seq<PointId>, vectors: seq<Vector>, payloads: Option<seq<Payload>>, i: nat)
    requires i <= |ids|
    ensures BuildFrom(ids, vectors, payloads, i).Ok? <==> (i == |ids| || Fits(ids, vectors, payloads))
    ensures BuildFrom(ids, vectors, payloads, i).Ok? ==>
      var pts := BuildFrom(ids, vectors, payloads, i).value;
      |pts| == |ids| - i &&
      forall j :: 0 <= j < |pts| ==>
        payloads.Some? && i + j < |vectors| && i + j < |payloads.value| &&
        pts[j] == Point(ids[i + j], vectors[i + j], payloads.value[i + j])
    decreases |ids| - i
  {
    if i < |ids| {
      BuildFromSucceeds(ids, vectors, payloads, i + 1);
    }
  }

  /** Point assembly succeeds exactly when `vectors` and `payloads` are at
      least as long as `ids`; it then yields exactly `|ids|` points, point
      `i` carrying `ids[i]`, `vectors[i]` and `payloads[i]`. With the
      default `payloads = None` every non-empty `ids` fails. */
  lemma {:induction false} BuildPointsSucceeds(ids: seq<PointId>, vectors: seq<Vector>, payloads: Option<seq<Payload>>)
    ensures BuildPoints(ids, vectors, payloads).Ok? <==> Fits(ids, vectors, payloads)
    ensures payloads.None? && |ids| > 0 ==> BuildPoints(ids, vectors, payloads).Err?
    ensures BuildPoints(ids, vectors, payloads).Ok? ==>
      var pts := BuildPoints(ids, vectors, payloads).value;
      |pts| == |ids| &&
      forall i :: 0 <= i < |pts| ==>
        payloads.Some? && i < |vectors| && i < |payloads.value| &&
        pts[i] == Point(ids[i], vectors[i], payloads.value[i])
  {
    BuildFromSucceeds(ids, vectors, payloads, 0);
  }

  lemma {:induction false} BuildFromFails(ids: seq<PointId>, vectors: seq<Vector>, ps: seq<Payload>, i: nat)
    requires i <= |vectors| && i <= |ps|
    requires var m := if |vectors| <= |ps| then |vectors| else |ps|; i <= m < |ids|
    ensures BuildFrom(ids, vectors, Some(ps), i) ==
      Err(if |vectors| <= |ps| then VectorIndexOutOfRange(|vectors|) else PayloadIndexOutOfRange(|ps|))
    decreases |ids| - i
  {
    if i < |vectors| && i < |ps| {
      BuildFromFails(ids, vectors, ps, i + 1);
    }
  }

  /** When point assembly fails, the error is the one raised at the first
      index that cannot be read; `vectors[i]` is read before `payloads[i]`. */
  lemma {:induction false} BuildPointsFailsAtFirstBadIndex(ids: seq<PointId>, vectors: seq<Vector>, payloads: Option<seq<Payload>>)
    requires !Fits(ids, vectors, payloads)
    ensures payloads.None? ==>
      BuildPoints(ids, vectors, payloads) ==
        Err(if |vectors| == 0 then VectorIndexOutOfRange(0) else PayloadsNotSubscriptable)
    ensures payloads.Some? ==>
      var ps := payloads.value;
      BuildPoints(ids, vectors, payloads) ==
        Err(if |vectors| <= |ps| then VectorIndexOutOfRange(|vectors|) else PayloadIndexOutOfRange(|ps|))
  {
    if payloads.Some? {
      BuildFromFails(ids, vectors, payloads.value, 0);
    }
  }

  // ---------------------------------------------------------------------
  // Search-result shaping (search)
  // ---------------------------------------------------------------------

  /** `dict.get(key, "")`. */
  function Get(m: Payload, key: string): string {
    if key in m then m[key] else ""
  }

  /** The payload of a hit can be read: it is absent (defaulting to the
      empty map) or a map; a payload attribute holding no dictionary makes
      the `.get` call raise. */
  predicate Readable(h: Hit) {
    !h.payload.NoneValue?
  }

  predicate AllReadable(hits: seq<Hit>) {
    forall i :: 0 <= i < |hits| ==> Readable(hits[i])
  }

  function Fields(h: Hit): Payload
    requires Readable(h)
  {
    match h.payload
    case Absent => map[]
    case Present(m) => m
  }

  /** The hit's `text` field, or `""` when the payload lacks it. */
  function Text(h: Hit): (r: string)
    requires Readable(h)
    ensures h.payload.Absent? ==> r == ""
    ensures r != "" ==> h.payload.Present? && "text" in h.payload.fields && r == h.payload.fields["text"]
  {
    Get(Fields(h), "text")
  }

  /** The hit's `source` field, or `""` when the payload lacks it. */
  function Source(h: Hit): (r: string)
    requires Readable(h)
    ensures h.payload.Absent? ==> r == ""
    ensures r != "" ==> h.payload.Present? && "source" in h.payload.fields && r == h.payload.fields["source"]
  {
    Get(Fields(h), "source")
  }

  /** The context list of a fully read hit list: one entry per hit with a
      non-empty text, in ranked order. */
  function Context(hits: seq<Hit>): (r: seq<string>)
    requires AllReadable(hits)
    ensures |r| <= |hits|
  {
    if hits == [] then []
    else
      var last := hits[|hits| - 1];
      Context(hits[..|hits| - 1]) + (if Text(last) != "" then [Text(last)] else [])
  }

  /** The source set of a fully read hit list. */
  function Sources(hits: seq<Hit>): (r: set<string>)
    requires AllReadable(hits)
  {
    if hits == [] then {}
    else
      var last := hits[|hits| - 1];
      Sources(hits[..|hits| - 1]) + (if Text(last) != "" then {Source(last)} else {})
  }

  /** The positions of the hits whose text is non-empty, in ranked order. */
  function Kept(hits: seq<Hit>): seq<nat>
    requires AllReadable(hits)
  {
    if hits == [] then []
    else Kept(hits[..|hits| - 1]) + (if Text(hits[|hits| - 1]) != "" then [|hits| - 1] else [])
  }

  /** The kept positions are in range and strictly increasing. (This and
      the next two lemmas are the parts of `ContextIsNonEmptyTexts`, proved
      separately to keep each proof small for the solver.) */
  lemma {:induction false} KeptIncreasing(hits: seq<Hit>)
    requires AllReadable(hits)
    ensures forall j :: 0 <= j < |Kept(hits)| ==> Kept(hits)[j] < |hits|
    ensures forall j1, j2 :: 0 <= j1 < j2 < |Kept(hits)| ==> Kept(hits)[j1] < Kept(hits)[j2]
  {
    if hits != [] {
      var n := |hits| - 1;
      KeptIncreasing(hits[..n]);
    }
  }

  /** A position is kept exactly when its hit's text is non-empty. (A part
      of `ContextIsNonEmptyTexts`, proved separately to keep it small.) */
  lemma {:induction false} KeptMembership(hits: seq<Hit>)
    requires AllReadable(hits)
    ensures forall i :: 0 <= i < |hits| ==> (i in Kept(hits) <==> Text(hits[i]) != "")
  {
    if hits != [] {
      var n := |hits| - 1;
      var init := hits[..n];
      KeptMembership(init);
      KeptIncreasing(init);
      var tail := if Text(hits[n]) != "" then [n] else [];
      assert Kept(hits) == Kept(init) + tail;
      forall i | 0 <= i < |hits|
        ensures i in Kept(hits) <==> Text(hits[i]) != ""
      {
        if i < n {
          assert init[i] == hits[i];
          assert i !in tail;
        } else {
          assert n !in Kept(init);
        }
      }
    }
  }

  /** Entry `j` of the context is the text of the hit at kept position `j`.
      (A part of `ContextIsNonEmptyTexts`, proved separately to keep it small.) */
  lemma {:induction false} ContextAtKept(hits: seq<Hit>)
    requires AllReadable(hits)
    ensures |Kept(hits)| == |Context(hits)|
    ensures forall j :: 0 <= j < |Kept(hits)| ==>
      Kept(hits)[j] < |hits| && Context(hits)[j] == Text(hits[Kept(hits)[j]])
  {
    if hits != [] {
      var n := |hits| - 1;
      var init := hits[..n];
      ContextAtKept(init);
      forall j | 0 <= j < |Kept(init)|
        ensures Kept(init)[j] < n && hits[Kept(init)[j]] == init[Kept(init)[j]]
      {
      }
    }
  }

  /** `Context` is exactly the subsequence of hit texts that are non-empty:
      it lists the texts at the positions `Kept`, which increase strictly
      and hold precisely the hits with non-empty text. */
  lemma {:induction false} ContextIsNonEmptyTexts(hits: seq<Hit>)
    requires AllReadable(hits)
    ensures |Kept(hits)| == |Context(hits)|
    ensures forall j :: 0 <= j < |Kept(hits)| ==>
      Kept(hits)[j] < |hits| && Context(hits)[j] == Text(hits[Kept(hits)[j]])
    ensures forall j1, j2 :: 0 <= j1 < j2 < |Kept(hits)| ==> Kept(hits)[j1] < Kept(hits)[j2]
    ensures forall i :: 0 <= i < |hits| ==> (i in Kept(hits) <==> Text(hits[i]) != "")
  {
    KeptIncreasing(hits);
    KeptMembership(hits);
    ContextAtKept(hits);
  }

  /** Every collected source is the `source` of a hit with non-empty text.
      (One half of `SourcesOfNonEmptyTexts`, proved separately to keep it small.) */
  lemma {:induction false} SourcesComeFromNonEmptyTexts(hits: seq<Hit>)
    requires AllReadable(hits)
    ensures forall s :: s in Sources(hits) ==>
      exists i :: 0 <= i < |hits| && Text(hits[i]) != "" && Source(hits[i]) == s
  {
    if hits != [] {
      var n := |hits| - 1;
      var init := hits[..n];
      SourcesComeFromNonEmptyTexts(init);
      forall s | s in Sources(hits)
        ensures exists i :: 0 <= i < |hits| && Text(hits[i]) != "" && Source(hits[i]) == s
      {
        if s in Sources(init) {
          var i :| 0 <= i < n && Text(init[i]) != "" && Source(init[i]) == s;
          assert hits[i] == init[i];
        } else {
          assert Text(hits[n]) != "" && Source(hits[n]) == s;
        }
      }
    }
  }

  /** The `source` of every hit with non-empty text is collected. (The other
      half of `SourcesOfNonEmptyTexts`, proved separately to keep it small.) */
  lemma {:induction false} NonEmptyTextsGiveSources(hits: seq<Hit>)
    requires AllReadable(hits)
    ensures forall i :: 0 <= i < |hits| && Text(hits[i]) != "" ==> Source(hits[i]) in Sources(hits)
  {
    if hits != [] {
      var n := |hits| - 1;
      var init := hits[..n];
      NonEmptyTextsGiveSources(init);
      forall i | 0 <= i < n && Text(hits[i]) != "" ensures Source(hits[i]) in Sources(hits) {
        assert init[i] == hits[i];
      }
    }
  }

  /** A source is collected exactly for the hits whose text is non-empty:
      each element of `Sources` is the `source` of such a hit, and each
      such hit's `source` is collected; so a hit with a non-empty text and
      no `source` key puts the empty string into `Sources`. */
  lemma {:induction false} SourcesOfNonEmptyTexts(hits: seq<Hit>)
    requires AllReadable(hits)
    ensures forall s :: s in Sources(hits) <==>
      exists i :: 0 <= i < |hits| && Text(hits[i]) != "" && Source(hits[i]) == s
    ensures forall i :: 0 <= i < |hits| && Text(hits[i]) != "" && "source" !in Fields(hits[i]) ==>
      "" in Sources(hits)
  {
    SourcesComeFromNonEmptyTexts(hits);
    NonEmptyTextsGiveSources(hits);
  }

  /** Shaping a list extended by one hit. */
  lemma ShapeSnoc(s: seq<Hit>, h: Hit)
    requires AllReadable(s) && Readable(h)
    ensures AllReadable(s + [h])
    ensures Context(s + [h]) == Context(s) + (if Text(h) != "" then [Text(h)] else [])
    ensures Sources(s + [h]) == Sources(s) + (if Text(h) != "" then {Source(h)} else {})
  {
  }

  lemma {:induction false} ContextAppend(a: seq<Hit>, b: seq<Hit>)
    requires AllReadable(a) && AllReadable(b)
    ensures AllReadable(a + b)
    ensures Context(a + b) == Context(a) + Context(b)
    decreases |b|
  {
    if b == [] {
      assert a + b == a;
    } else {
      var n := |b| - 1;
      var init, x := b[..n], b[n];
      assert b == init + [x];
      assert a + b == (a + init) + [x];
      ContextAppend(a, init);
      ShapeSnoc(a + init, x);
      ShapeSnoc(init, x);
    }
  }

  lemma {:induction false} SourcesAppend(a: seq<Hit>, b: seq<Hit>)
    requires AllReadable(a) && AllReadable(b)
    ensures AllReadable(a + b)
    ensures Sources(a + b) == Sources(a) + Sources(b)
    decreases |b|
  {
    if b == [] {
      assert a + b == a;
    } else {
      var n := |b| - 1;
      var init, x := b[..n], b[n];
      assert b == init + [x];
      assert a + b == (a + init) + [x];
      SourcesAppend(a, init);
      ShapeSnoc(a + init, x);
      ShapeSnoc(init, x);
    }
  }

  /** Shaping distributes over concatenation of hit lists. */
  lemma {:induction false} ShapeAppend(a: seq<Hit>, b: seq<Hit>)
    requires AllReadable(a) && AllReadable(b)
    ensures AllReadable(a + b)
    ensures Context(a + b) == Context(a) + Context(b)
    ensures Sources(a + b) == Sources(a) + Sources(b)
  {
    ContextAppend(a, b);
    SourcesAppend(a, b);
  }

  /** What one hit contributes, wherever it stands in the ranked list: its
      text and its source when the text is non-empty, nothing otherwise. */
  lemma HitContribution(a: seq<Hit>, h: Hit, b: seq<Hit>)
    requires AllReadable(a) && Readable(h) && AllReadable(b)
    ensures AllReadable(a + [h] + b)
    ensures Context(a + [h] + b) == Context(a) + (if Text(h) != "" then [Text(h)] else []) + Context(b)
    ensures Sources(a + [h] + b) == Sources(a) + (if Text(h) != "" then {Source(h)} else {}) + Sources(b)
  {
    ShapeAppend(a, [h]);
    assert [h][..0] == [];
    ShapeAppend(a + [h], b);
  }

  /** At most one source per context entry, at most one context entry per hit. */
  lemma {:induction false} ShapeBounds(hits: seq<Hit>)
    requires AllReadable(hits)
    ensures |Sources(hits)| <= |Context(hits)| <= |hits|
  {
    if hits != [] {
      ShapeBounds(hits[..|hits| - 1]);
    }
  }

  /** The value `search` returns. */
  datatype SearchResult = SearchResult(context: seq<string>, sources: set<string>)

  /** `search` fails on the hit at `index` whose payload attribute holds no
      dictionary. */
  datatype SearchError = PayloadIsNone(index: nat)

  // ---------------------------------------------------------------------
  // The storage wrapper
  // ---------------------------------------------------------------------

  class QdrantStorage {
    const client: Client
    const collection: string

    /** Binds the wrapper to `collection` and creates that collection, with
        `dim`-dimensional cosine vectors, only if the server lacks it. */
    constructor (client: Client, collection: string := DefaultCollection, dim: nat := DefaultDim)
      modifies client
      ensures this.client == client && this.collection == collection
      ensures collection in client.collections
      ensures collection in old(client.collections) ==> client.collections == old(client.collections)
      ensures collection !in old(client.collections) ==>
        client.collections == old(client.collections)[collection := VectorParams(dim, Cosine)]
      ensures client.upserts == old(client.upserts)
    {
      this.client := client;
      this.collection := collection;
      new;
      var present := client.CollectionExists(collection);
      if !present {
        client.CreateCollection(collection, VectorParams(dim, Cosine));
      }
    }

    /** Builds one point per id and upserts the batch into the collection;
        if the point list cannot be built nothing reaches the store. */
    method AddVectors(ids: seq<PointId>, vectors: seq<Vector>, payloads: Option<seq<Payload>> := None)
      returns (r: Outcome<AssemblyError>)
      modifies client
      ensures client.collections == old(client.collections)
      ensures BuildPoints(ids, vectors, payloads).Ok? ==>
        r == Pass && client.upserts == old(client.upserts) + [(collection, BuildPoints(ids, vectors, payloads).value)]
      ensures BuildPoints(ids, vectors, payloads).Err? ==>
        r == Fail(BuildPoints(ids, vectors, payloads).error) && client.upserts == old(client.upserts)
    {
      match BuildPoints(ids, vectors, payloads)
      case Err(e) =>
        r := Fail(e);
      case Ok(points) =>
        client.Upsert(collection, points);
        r := Pass;
    }

    /** Shapes the ranked `hits` the store returned for a query with limit
        `k`: the non-empty texts in order, and the sources of those hits.
        The first hit whose payload cannot be read aborts the search. */
    method Search(hits: seq<Hit>, k: int := DefaultTopK) returns (r: Result<SearchResult, SearchError>)
      ensures r.Ok? <==> AllReadable(hits)
      ensures r.Err? ==>
        r.error.index < |hits| && !Readable(hits[r.error.index]) && AllReadable(hits[..r.error.index])
      ensures r.Ok? ==> r.value == SearchResult(Context(hits), Sources(hits))
      ensures r.Ok? ==> |r.value.sources| <= |r.value.context| <= |hits|
      ensures r.Ok? && |hits| <= k ==> |r.value.context| <= k
      ensures hits == [] ==> r == Ok(SearchResult([], {}))
    {
      var context: seq<string> := [];
      var sources: set<string> := {};
      var i := 0;
      while i < |hits|
        invariant 0 <= i <= |hits|
        invariant AllReadable(hits[..i])
        invariant context == Context(hits[..i]) && sources == Sources(hits[..i])
      {
        var hit := hits[i];
        if hit.payload.NoneValue? {
          return Err(PayloadIsNone(i));
        }
        var payload := Fields(hit);
        var text := Get(payload, "text");
        var source := Get(payload, "source");
        if text != "" {
          context := context + [text];
          sources := sources + {source};
        }
        assert hits[..i + 1][..i] == hits[..i];
        i := i + 1;
      }
      assert hits[..i] == hits;
      ShapeBounds(hits);
      r := Ok(SearchResult(context, sources));
    }
  }
}
