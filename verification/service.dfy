/**
 * The service class every entity repeats (getAll, getById, create, update,
 * delete), written once over the entity's columns F and its DTO D.
 */
module Service {
  import opened Options
  import opened Repository

  /**
   * The response map: its "success" code becomes the variant, and the
   * entity travels under the key the service names it by ("activo", ...).
   */
  datatype Response<E> =
    | Listed(data: seq<E>)
    | Ok(key: string, entity: E)
    | Created(key: string, entity: E)
    | Deleted(message: string)
    | NotFound(message: string)
  {
    /** The "success" entry of the response map. */
    function Code(): (c: int)
      ensures c in {200, 201, 204, 404}
      ensures c == 404 <==> NotFound?
      ensures c == 200 <==> Listed? || Ok?
      ensures c == 201 <==> Created?
      ensures c == 204 <==> Deleted?
    {
      match this
      case Listed(_) => 200
      case Ok(_, _) => 200
      case Created(_, _) => 201
      case Deleted(_) => 204
      case NotFound(_) => 404
    }
  }

  /** What distinguishes one entity's service from another's. */
  datatype Config<!D, F> = Config(
    key: string,             // the response key the entity is put under
    notFoundMessage: string, // the 404 message of getById, update and delete
    deletedMessage: string,  // the 204 message of delete
    mapper: D -> F)          // the entity's mapX, on the non-key columns

  /** A response together with the table as it stands afterwards. */
  datatype Reply<F> = Reply(response: Response<Entity<F>>, store: Store<F>)

  /** getAll: code 200 with every row of the table, each exactly once. */
  method GetAll<F(==)>(s: Store<F>) returns (r: Response<Entity<F>>)
    ensures r.Listed? && r.Code() == 200
    ensures |r.data| == |s.rows|
    ensures forall e :: e in r.data <==> e in s.rows.Values
    ensures Valid(s) ==> forall i, j :: 0 <= i < j < |r.data| ==> r.data[i] != r.data[j]
  {
    var rows := FindAll(s);
    r := Listed(rows);
  }

  /** getById: the stored row with code 200 iff the key is present, else 404 with the fixed message. */
  function GetById<D, F>(cfg: Config<D, F>, s: Store<F>, id: Id): (r: Response<Entity<F>>)
    ensures r.Ok? <==> id in s.rows
    ensures r.Ok? ==> r.key == cfg.key && r.entity == s.rows[id]
    ensures !r.Ok? ==> r == NotFound(cfg.notFoundMessage)
    ensures Valid(s) && r.Ok? ==> r.entity.id == Some(id)
  {
    match FindById(s, id)
    case None => NotFound(cfg.notFoundMessage)
    case Some(current) => Ok(cfg.key, current)
  }

  /**
   * create: code 201; the mapped DTO is inserted under a key the table has
   * never used, and every existing row stays as it was.
   */
  function Create<D, F>(cfg: Config<D, F>, s: Store<F>, dto: D): (r: Reply<F>)
    ensures r.response.Created? && r.response.key == cfg.key
    ensures r.response.entity.fields == cfg.mapper(dto)
    ensures r.response.entity.id == Some(s.nextId)
    ensures r.store.rows == s.rows[s.nextId := r.response.entity]
    ensures r.store.nextId == s.nextId + 1
    ensures Valid(s) ==> s.nextId !in s.rows && |r.store.rows| == |s.rows| + 1 && Valid(r.store)
  {
    var saved := Save(s, Entity(None, cfg.mapper(dto)));
    Reply(Created(cfg.key, saved.0), saved.1)
  }

  /**
   * update: 404 with the table untouched when the key is absent. Otherwise
   * the mapped DTO, given the existing row's id, replaces that row and
   * nothing else: the old row's columns play no part in the result.
   */
  function Update<D, F>(cfg: Config<D, F>, s: Store<F>, id: Id, dto: D): (r: Reply<F>)
    ensures id !in s.rows ==> r == Reply(NotFound(cfg.notFoundMessage), s)
    ensures id in s.rows ==> r.response.Ok? && r.response.key == cfg.key
    ensures id in s.rows ==> r.response.entity.fields == cfg.mapper(dto)
    ensures id in s.rows && Valid(s) ==>
      && r.response.entity.id == Some(id)
      && r.store == Store(s.rows[id := r.response.entity], s.nextId)
      && Valid(r.store)
  {
    match FindById(s, id)
    case None => Reply(NotFound(cfg.notFoundMessage), s)
    case Some(current) =>
      var saved := Save(s, Entity(current.id, cfg.mapper(dto)));
      Reply(Ok(cfg.key, saved.0), saved.1)
  }

  /** delete: 204 and only that row removed when present, else 404 with the table untouched. */
  function Delete<D, F>(cfg: Config<D, F>, s: Store<F>, id: Id): (r: Reply<F>)
    ensures id !in s.rows ==> r == Reply(NotFound(cfg.notFoundMessage), s)
    ensures id in s.rows ==> r.response == Deleted(cfg.deletedMessage)
    ensures id in s.rows ==> r.store.rows.Keys == s.rows.Keys - {id} && |r.store.rows| == |s.rows| - 1
    ensures forall k :: k in s.rows && k != id ==> k in r.store.rows && r.store.rows[k] == s.rows[k]
    ensures r.store.nextId == s.nextId
    ensures Valid(s) ==> Valid(r.store)
  {
    match FindById(s, id)
    case None => Reply(NotFound(cfg.notFoundMessage), s)
    case Some(_) => Reply(Deleted(cfg.deletedMessage), DeleteById(s, id))
  }

  /** The single error condition: getById, update and delete answer 404 exactly when the key is absent. */
  lemma NotFoundIffAbsent<D, F>(cfg: Config<D, F>, s: Store<F>, id: Id, dto: D)
    ensures GetById(cfg, s, id).Code() == 404 <==> id !in s.rows
    ensures Update(cfg, s, id, dto).response.Code() == 404 <==> id !in s.rows
    ensures Delete(cfg, s, id).response.Code() == 404 <==> id !in s.rows
    ensures Create(cfg, s, dto).response.Code() == 201
  {
  }

  /** A created row is found again under the key it was given, with the mapped DTO's columns. */
  lemma CreateThenGetById<D, F>(cfg: Config<D, F>, s: Store<F>, dto: D)
    requires Valid(s)
    ensures var c := Create(cfg, s, dto);
      GetById(cfg, c.store, c.response.entity.id.value) == Ok(cfg.key, Entity(Some(s.nextId), cfg.mapper(dto)))
  {
  }

  /** After a successful update, getById returns the mapped DTO under the same key. */
  lemma UpdateThenGetById<D, F>(cfg: Config<D, F>, s: Store<F>, id: Id, dto: D)
    requires Valid(s) && id in s.rows
    ensures GetById(cfg, Update(cfg, s, id, dto).store, id) == Ok(cfg.key, Entity(Some(id), cfg.mapper(dto)))
  {
  }

  /** After delete, whatever it answered, getById on that key is 404. */
  lemma DeleteThenGetById<D, F>(cfg: Config<D, F>, s: Store<F>, id: Id)
    ensures GetById(cfg, Delete(cfg, s, id).store, id) == NotFound(cfg.notFoundMessage)
  {
  }

  /**
   * update is not a patch: two tables that differ in the old row under the
   * key give the same new row, so nothing of the old row survives.
   */
  lemma UpdateIgnoresOldRow<D, F>(cfg: Config<D, F>, s1: Store<F>, s2: Store<F>, id: Id, dto: D)
    requires Valid(s1) && Valid(s2) && id in s1.rows && id in s2.rows
    ensures Update(cfg, s1, id, dto).response == Update(cfg, s2, id, dto).response
    ensures Update(cfg, s1, id, dto).store.rows[id] == Update(cfg, s2, id, dto).store.rows[id]
  {
  }
}
