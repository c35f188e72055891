/** An abstract model of the vector-store client that the storage wrapper
    drives. Only what the wrapper observes is modelled: which collections
    exist (with the vector parameters they were created with), and the
    batches of points that were handed to `upsert`. Ranking, overwrite by
    id and dimension checks belong to the engine and are not modelled. */
module Qdrant {

  /** A point's payload: string keys to string values. */
  type Payload = map<string, string>

  /** An embedding vector; its entries are never inspected here. */
  type Vector = seq<real>

  /** The store accepts unsigned integers or UUIDs as point ids. */
  datatype PointId = NumId(num: nat) | UuidId(uuid: string)

  /** The record handed to `upsert`. */
  datatype Point = Point(id: PointId, vector: Vector, payload: Payload)

  datatype Distance = Cosine | Euclid | Dot | Manhattan

  /** The vector configuration a collection is created with. */
  datatype VectorParams = VectorParams(size: nat, distance: Distance)

  /** The `payload` attribute of a search hit, as the wrapper reads it:
      missing altogether, present but holding no dictionary, or a map. */
  datatype PayloadAttr = Absent | NoneValue | Present(fields: Payload)

  /** One entry of the ranked list the store returns from a search. */
  datatype Hit = Hit(id: PointId, payload: PayloadAttr)

  class Client {
    /** The collections on the server, by name. */
    var collections: map<string, VectorParams>
    /** Every upsert call received, in order: (collection name, points). */
    var upserts: seq<(string, seq<Point>)>

    /** A client connected to a server that already holds `existing`. */
    constructor (existing: map<string, VectorParams>)
      ensures collections == existing && upserts == []
    {
      collections := existing;
      upserts := [];
    }

    /** Asks the server whether it holds a collection called `name`. */
    method CollectionExists(name: string) returns (present: bool)
      ensures present <==> name in collections
    {
      present := name in collections;
    }

    /** Creates a new collection; the server refuses a name it already holds. */
    method CreateCollection(name: string, params: VectorParams)
      requires name !in collections
      modifies this
      ensures collections == old(collections)[name := params]
      ensures upserts == old(upserts)
    {
      collections := collections[name := params];
    }

    method Upsert(name: string, points: seq<Point>)
      modifies this
      ensures upserts == old(upserts) + [(name, points)]
      ensures collections == old(collections)
    {
      upserts := upserts + [(name, points)];
    }
  }
}
