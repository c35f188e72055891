# pyrag vector storage wrapper, modelled in Dafny

pyrag is a small retrieval-augmented-generation pipeline. It splits documents into chunks and embeds them. It stores them in a Qdrant collection and later retrieves the chunks nearest to a question. Its only self-contained logic is the `QdrantStorage` wrapper in `vector_db.py`, and this project models that wrapper:

- **Ensure-collection** (`__init__`): the wrapper is bound to one collection. It creates that collection, with cosine vectors of the given dimension, only if the server does not already have it.
- **Point assembly** (`add_vectors`): three index-aligned lists (`ids`, `vectors`, `payloads`) become one point per id. The points are handed to a single upsert.
- **Search-result shaping** (`search`): the store's ranked hits become an ordered `context` list of the non-empty `text` payload fields and a `sources` set. A source is collected only for hits with non-empty text. A missing key reads as `""`.

Files:

- `wrappers.dfy`: `Option`, `Result` and `Outcome`. `Option` models the optional `payloads` argument, whose default is `None`. `Result` and `Outcome` model the errors the wrapper raises.
- `qdrant.dfy`: an abstract Qdrant client. It holds a map of existing collections to their vector parameters and a log of the upsert calls it received. The search answer is not computed by the client: the ranked hit list is a parameter of `Search`.
- `vector_db.dfy`: the wrapper. It holds point assembly as a function, `BuildPoints`, with lemmas about it. It holds the shaping specification (`Context`, `Sources`, `Kept`) with lemmas about it. It holds the `QdrantStorage` class, whose `Search` method is the source's loop, proved against `Context` and `Sources`.

Facts about the code that the model keeps:

- The code derives no point ids. Ids are whatever the caller passes to `add_vectors`.
- The code has no dimension check. An existing collection is kept as it is, whatever its dimension.
- The default `payloads=None` makes any non-empty `ids` fail. With the default, no point reaches the store.

## Model

| member | source | states |
|---|---|---|
| `VectorDb.QdrantStorage.constructor` | vector_db.py:6-16 | After construction the collection exists. It is created with cosine vectors of size `dim` only when it was absent. An existing collection is left exactly as it was and is not recreated. No upsert happens. |
| `VectorDb.QdrantStorage.AddVectors` | vector_db.py:18-35 | If the point list can be built, exactly one upsert of that list into the wrapper's collection is logged. Otherwise the assembly error is returned and the store is untouched. The set of collections never changes. |
| `VectorDb.PointAt` | vector_db.py:24-28 | One `PointStruct` for index `i`. It succeeds exactly when `vectors[i]` and `payloads[i]` exist, and then carries `ids[i]`, `vectors[i]` and `payloads[i]`. `vectors[i]` is read first, so a missing vector is the error whenever `vectors` is too short. |
| `VectorDb.BuildFrom` | vector_db.py:23-30 | The comprehension from index `i` on. When it succeeds it holds `len(ids) - i` points, and its `j`-th point has id `ids[i + j]`. |
| `VectorDb.BuildPoints` | vector_db.py:23-30 | The point list of the comprehension, built index by index and abandoned at the first index that cannot be read. When it succeeds it holds one point per id, and point `i` has id `ids[i]`. |
| `VectorDb.BuildPointsSucceeds` | vector_db.py:18-30 | Assembly succeeds exactly when `vectors` and `payloads` are at least as long as `ids`. It then yields exactly `len(ids)` points, and point `i` carries `ids[i]`, `vectors[i]` and `payloads[i]`. With the default `payloads=None`, any non-empty `ids` fails. |
| `VectorDb.BuildFromSucceeds` | vector_db.py:23-30 | The same statement for the comprehension's suffix from index `i`, proved by induction over the remaining indices. |
| `VectorDb.BuildPointsFailsAtFirstBadIndex` | vector_db.py:23-30 | A failed assembly raises at the first index that cannot be read, and `vectors[i]` is read before `payloads[i]`. With `payloads=None` the error is an index error on `vectors` when it is empty, and "not subscriptable" otherwise. With a list, the error is an index error at `len(vectors)` when `vectors` is no longer than `payloads` (it is read first), and at `len(payloads)` otherwise. |
| `VectorDb.BuildFromFails` | vector_db.py:23-30 | The same error statement for the comprehension's suffix from any index up to the first bad one. |
| `VectorDb.QdrantStorage.Search` | vector_db.py:37-57 | The search succeeds exactly when every hit's payload can be read. Otherwise it fails at the first hit whose payload attribute is `None`. On success, `context` and `sources` are exactly `Context(hits)` and `Sources(hits)`. Also `len(sources) <= len(context) <= len(hits)`, `len(context) <= k` whenever the store honoured `limit=k`, and an empty hit list gives an empty context and empty sources. |
| `VectorDb.Readable` | vector_db.py:47-49 | A hit's payload can be read when the attribute is missing, which defaults to `{}`, or holds a map. A `None` payload attribute makes `.get` raise. |
| `VectorDb.Text` | vector_db.py:47-48 | `payload.get("text", "")`: empty for a missing payload attribute, and a non-empty result is the payload's `text` value. |
| `VectorDb.Source` | vector_db.py:47-49 | `payload.get("source", "")`: empty for a missing payload attribute, and a non-empty result is the payload's `source` value. |
| `VectorDb.Context` | vector_db.py:44-51 | The `context` list for hits whose payloads can all be read: the `text` values (default `""`) of the hits whose text is non-empty, in ranked order. It has at most one entry per hit. |
| `VectorDb.Sources` | vector_db.py:45-52 | The `sources` set for hits whose payloads can all be read: the `source` values (default `""`) of the hits whose text is non-empty. |
| `VectorDb.ContextIsNonEmptyTexts` | vector_db.py:44-51 | `context` is exactly the subsequence of non-empty hit texts in ranked order. It lists the texts at strictly increasing positions, and those positions are precisely the hits whose text is non-empty. |
| `VectorDb.SourcesOfNonEmptyTexts` | vector_db.py:46-52 | A string is in `sources` if and only if it is the `source` value (default `""`) of some hit with non-empty text. So a hit with non-empty text and no `source` key puts `""` into `sources`. |
| `VectorDb.KeptIncreasing` | vector_db.py:46-51 | The positions of hits that reach `context` are in range and strictly increasing, so ranked order is kept. |
| `VectorDb.KeptMembership` | vector_db.py:48-51 | A hit's position is among those that reach `context` exactly when its `text` (default `""`) is non-empty. |
| `VectorDb.ContextAtKept` | vector_db.py:46-51 | `context` has one entry per kept position, and entry `j` is the text of the hit at the `j`-th kept position. |
| `VectorDb.SourcesComeFromNonEmptyTexts` | vector_db.py:46-52 | Every element of `sources` is the `source` value of some hit with non-empty text. |
| `VectorDb.NonEmptyTextsGiveSources` | vector_db.py:46-52 | The `source` value of every hit with non-empty text is in `sources`. |
| `VectorDb.HitContribution` | vector_db.py:46-52 | Wherever a hit stands in the ranked list, it adds its text to `context` and its source to `sources` if its text is non-empty, and adds nothing to either otherwise. |
| `VectorDb.ShapeSnoc` | vector_db.py:46-52 | One more hit at the end of the ranked list adds its text to `context` and its source to `sources` when its text is non-empty, and nothing otherwise. |
| `VectorDb.ContextAppend` | vector_db.py:44-51 | The `context` of a concatenation of hit lists is the concatenation of their contexts. |
| `VectorDb.SourcesAppend` | vector_db.py:45-52 | The `sources` of a concatenation of hit lists is the union of their source sets. |
| `VectorDb.ShapeAppend` | vector_db.py:44-52 | Shaping a concatenation of hit lists concatenates the contexts and unites the source sets. |
| `VectorDb.ShapeBounds` | vector_db.py:44-52 | `len(sources) <= len(context) <= len(results)`. |
| `Qdrant.Client.constructor` | vector_db.py:8 | The client starts connected to a server that already holds the given collections, and no upsert has been received. |
| `Qdrant.Client.CollectionExists` | vector_db.py:12 | The answer is true exactly when the server holds a collection of that name. |
| `Qdrant.Client.CreateCollection` | vector_db.py:13-16 | Creating a collection is allowed only for a name the server does not hold. It records the collection with the given vector parameters and leaves the upsert log unchanged. |
| `Qdrant.Client.Upsert` | vector_db.py:32-35 | An upsert appends one (collection, points) entry to the client's log. The collections are unchanged. |

## Left out

- The client is an abstract oracle. Nearest-neighbour ranking by cosine similarity, tie-breaking, and overwrite-by-id in `upsert` are the engine's and are not modelled. The client keeps a log of upsert calls instead of a stored point set.
- `Search`: the query vector and `limit=k` go only to the engine. The ranked hit list the engine returns is a parameter of the method, and it is not assumed to be shorter than `k`. The bound `len(context) <= k` is stated under that condition.
- Dimension enforcement (`VectorParams(size=dim)` against the vectors upserted) happens in the engine. Vectors are opaque sequences of reals, and floating point is not modelled.
- VectorDb.QdrantStorage.constructor: the existence check and the creation (vector_db.py:12-13) are two separate server calls, so they are not atomic. If another process creates the collection between them, the source raises. Concurrent clients are not modelled, so the model's constructor always ends with the collection present.
- Errors raised by the engine are not modelled. Examples are an upsert into or a search of a collection that is missing, a bad `limit`, or a connection failure.
- `payloads` entries are modelled as maps. An entry that is `None`, which stores the point without a payload, or an entry of another type is not modelled.
- Payload values are modelled as strings. The source accepts any JSON value and tests `text` for truthiness, which for strings means non-empty.
- The connection URL and the timeout (vector_db.py:8) are network configuration. The client is passed to the constructor already connected.
- The default arguments (`collection="docs"`, `dim=3072`, `payloads=None`, `k=5`) are parameter defaults of the constructor, `AddVectors` and `Search`, taken from `DefaultCollection`, `DefaultDim` and `DefaultTopK`. `Search` takes the hit list first, because the query vector is not a parameter.
- `data_loader.py` is not part of this model. Its PDF reading and sentence splitting are library code, and its embedding call is a network request.
- `main.py` is not part of this model. It is HTTP and orchestration wiring with no pipeline logic.
- `models.py` holds records without behaviour. `SearchResult` mirrors the context-list and source-set shape.
