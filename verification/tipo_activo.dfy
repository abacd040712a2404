/** An asset type: name, brand and model. */
module TipoActivo {
  import opened Options
  import opened Repository
  import Service

  /** The entity's columns other than its generated key. */
  datatype TipoActivo = TipoActivo(
    nombre: Option<string>,
    marca: Option<string>,
    modelo: Option<string>)

  /** The creation and update payload: the same fields, each of which the client may leave null. */
  datatype CreateTipoActivoDto = CreateTipoActivoDto(
    nombre: Option<string>,
    marca: Option<string>,
    modelo: Option<string>)

  /** A newly constructed TipoActivo: every column null. */
  const Blank: TipoActivo := TipoActivo(None, None, None)

  /**
   * Starting from a blank entity, copies each DTO field that is non-null:
   * every column ends up with the DTO's value, and a null field leaves it null.
   */
  function MapTipoActivo(dto: CreateTipoActivoDto): (e: TipoActivo)
    ensures e.nombre == dto.nombre
    ensures e.marca == dto.marca
    ensures e.modelo == dto.modelo
  {
    TipoActivo(
      nombre := if dto.nombre.Some? then dto.nombre else Blank.nombre,
      marca := if dto.marca.Some? then dto.marca else Blank.marca,
      modelo := if dto.modelo.Some? then dto.modelo else Blank.modelo)
  }

  /** TipoActivoService: its response key, its messages and its mapper. */
  const TipoActivoService: Service.Config<CreateTipoActivoDto, TipoActivo> :=
    Service.Config("tipoActivo", "Tipo de activo no encontrado", "Tipo de activo eliminado correctamente", MapTipoActivo)

  /**
   * TipoActivoService on a well-formed table: "Tipo de activo no encontrado" with no change when the key is
   * absent; otherwise the row, MapTipoActivo(dto) under the same key, or removal
   * with "Tipo de activo eliminado correctamente"; create stores MapTipoActivo(dto) under a fresh key.
   */
  lemma TipoActivoServiceContract(s: Store<TipoActivo>, id: Id, dto: CreateTipoActivoDto)
    requires Valid(s)
    ensures id !in s.rows ==>
      && Service.GetById(TipoActivoService, s, id) == Service.NotFound("Tipo de activo no encontrado")
      && Service.Update(TipoActivoService, s, id, dto) == Service.Reply(Service.NotFound("Tipo de activo no encontrado"), s)
      && Service.Delete(TipoActivoService, s, id) == Service.Reply(Service.NotFound("Tipo de activo no encontrado"), s)
    ensures id in s.rows ==>
      && Service.GetById(TipoActivoService, s, id) == Service.Ok("tipoActivo", s.rows[id])
      && Service.Update(TipoActivoService, s, id, dto).response == Service.Ok("tipoActivo", Entity(Some(id), MapTipoActivo(dto)))
      && Service.Update(TipoActivoService, s, id, dto).store.rows[id] == Entity(Some(id), MapTipoActivo(dto))
      && Service.Delete(TipoActivoService, s, id).response == Service.Deleted("Tipo de activo eliminado correctamente")
    ensures var c := Service.Create(TipoActivoService, s, dto);
      && s.nextId !in s.rows
      && c.response == Service.Created("tipoActivo", Entity(Some(s.nextId), MapTipoActivo(dto)))
      && c.store.rows[s.nextId] == Entity(Some(s.nextId), MapTipoActivo(dto))
  {
  }
}
