/**
 * A run of write requests against one service, in order. Reads leave the
 * table alone, so only POST, PUT and DELETE appear.
 */
module History {
  import opened Options
  import opened Repository
  import opened Service

  datatype Request<D> = Post(dto: D) | Put(id: Id, dto: D) | Remove(id: Id)

  /** The table after one request. */
  function Apply<D, F>(cfg: Config<D, F>, s: Store<F>, q: Request<D>): Store<F>
  {
    match q
    case Post(dto) => Create(cfg, s, dto).store
    case Put(id, dto) => Update(cfg, s, id, dto).store
    case Remove(id) => Delete(cfg, s, id).store
  }

  /** The table after a run of requests: the store invariant holds throughout and the counter never goes back. */
  function Run<D, F>(cfg: Config<D, F>, s: Store<F>, qs: seq<Request<D>>): (r: Store<F>)
    ensures Valid(s) ==> Valid(r)
    ensures s.nextId <= r.nextId
    decreases |qs|
  {
    if qs == [] then s else Run(cfg, Apply(cfg, s, qs[0]), qs[1..])
  }

  /** The number of POST requests in a run. */
  function Posts<D>(qs: seq<Request<D>>): nat
  {
    if qs == [] then 0 else (if qs[0].Post? then 1 else 0) + Posts(qs[1..])
  }

  /**
   * On a well-formed table only create moves the counter, by exactly one:
   * update replaces a row under its own key, delete frees a key without
   * reusing it, and a 404 changes nothing.
   */
  lemma {:induction false} RunCountsPosts<D, F>(cfg: Config<D, F>, s: Store<F>, qs: seq<Request<D>>)
    requires Valid(s)
    ensures Run(cfg, s, qs).nextId == s.nextId + Posts(qs)
    decreases |qs|
  {
    if qs != [] {
      RunCountsPosts(cfg, Apply(cfg, s, qs[0]), qs[1..]);
    }
  }

  /**
   * A freshly created table: the first create is answered with key 1, and
   * after any run of requests the table is valid and the counter is one past
   * the number of creates, so every key lies between 1 and that number.
   */
  lemma FreshTable<D, F>(cfg: Config<D, F>, dto: D, qs: seq<Request<D>>)
    ensures Create(cfg, Empty(), dto).response == Created(cfg.key, Entity(Some(1), cfg.mapper(dto)))
    ensures var r := Run(cfg, Empty(), qs);
      Valid(r) && r.nextId == 1 + Posts(qs)
  {
    RunCountsPosts(cfg, Empty(), qs);
  }

  /** One request adds no key other than a fresh one from the counter. */
  lemma ApplyAddsOnlyFreshKeys<D, F>(cfg: Config<D, F>, s: Store<F>, q: Request<D>)
    ensures s.nextId <= Apply(cfg, s, q).nextId
    ensures forall k :: k in Apply(cfg, s, q).rows ==> k in s.rows || s.nextId <= k
  {
  }

  /** Whatever the requests, every key of the final table was already there or came from the counter afterwards. */
  lemma {:induction false} RunAddsOnlyFreshKeys<D, F>(cfg: Config<D, F>, s: Store<F>, qs: seq<Request<D>>)
    ensures forall k :: k in Run(cfg, s, qs).rows ==> k in s.rows || s.nextId <= k
    decreases |qs|
  {
    if qs != [] {
      var s' := Apply(cfg, s, qs[0]);
      ApplyAddsOnlyFreshKeys(cfg, s, qs[0]);
      RunAddsOnlyFreshKeys(cfg, s', qs[1..]);
    }
  }

  /**
   * IDENTITY keys are never handed out twice: once delete has removed a row,
   * getById on its key answers 404 after any later run of requests.
   */
  lemma DeletedKeyNeverReturns<D, F>(cfg: Config<D, F>, s: Store<F>, id: Id, qs: seq<Request<D>>)
    requires Valid(s) && id in s.rows
    ensures Delete(cfg, s, id).response.Code() == 204
    ensures GetById(cfg, Run(cfg, Delete(cfg, s, id).store, qs), id) == NotFound(cfg.notFoundMessage)
  {
    RunAddsOnlyFreshKeys(cfg, Delete(cfg, s, id).store, qs);
  }
}
