/**
 * The package-level cache of storage clients behind `BlobContext.GetBlobClient` (lib/blob.go).
 * A client is built at most once per context value; a failed build is not remembered.
 *
 * Building a client (`storage.NewClient` followed by `GetBlobService`) is outside the model: its
 * outcome for the context at hand is passed in as `built`.
 */
module ClientCache {

  import opened Common
  import opened BlobUri

  /**
   * One lookup on a cache `clients`: the answer and the cache afterwards. A cached client is
   * returned as it is; otherwise the built one is stored and returned, or the build error is
   * returned and nothing is stored.
   */
  function Lookup<T>(clients: map<BlobContext, T>, b: BlobContext, built: Result<T>): (r: (Result<T>, map<BlobContext, T>))
    ensures r.0.Success? ==> b in r.1 && r.1[b] == r.0.value
  {
    if b in clients then (Success(clients[b]), clients)
    else
      match built
      case Failure(e) => (Failure(e), clients)
      case Success(client) => (Success(client), clients[b := client])
  }

  /** A lookup never drops or replaces a cached client. */
  lemma LookupKeeps<T>(clients: map<BlobContext, T>, b: BlobContext, built: Result<T>)
    ensures var after := Lookup(clients, b, built).1;
      forall k :: k in clients ==> k in after && after[k] == clients[k]
  {
  }

  /** Once a lookup succeeds, every later lookup of the same context answers the same client, whatever a new build would give, and changes nothing. */
  lemma LookupMemoises<T>(clients: map<BlobContext, T>, b: BlobContext, built: Result<T>, rebuilt: Result<T>)
    requires Lookup(clients, b, built).0.Success?
    ensures var (first, after) := Lookup(clients, b, built);
      Lookup(after, b, rebuilt) == (first, after)
  {
  }

  /** A lookup fails only when the context is not cached and the build fails; it then returns the build's error and leaves the cache as it was. */
  lemma LookupFailure<T>(clients: map<BlobContext, T>, b: BlobContext, built: Result<T>)
    ensures Lookup(clients, b, built).0.Failure? <==> b !in clients && built.Failure?
    ensures Lookup(clients, b, built).0.Failure? ==>
      Lookup(clients, b, built) == (Failure(built.error), clients)
  {
  }

  /** A lookup adds at most the looked-up context. */
  lemma LookupAddsOnly<T>(clients: map<BlobContext, T>, b: BlobContext, built: Result<T>)
    ensures Lookup(clients, b, built).1.Keys <= clients.Keys + {b}
  {
  }

  /** The package-level `clients` map. */
  class ClientCache<T> {
    var clients: map<BlobContext, T>

    constructor ()
      ensures clients == map[]
    {
      clients := map[];
    }

    /** `BlobContext.GetBlobClient`. */
    method GetBlobClient(b: BlobContext, built: Result<T>) returns (r: Result<T>)
      modifies this
      ensures (r, clients) == Lookup(old(clients), b, built)
    {
      if b !in clients {
        match built {
          case Failure(e) =>
            return Failure(e);
          case Success(client) =>
            clients := clients[b := client];
        }
      }
      r := Success(clients[b]);
    }
  }
}
