/** A maintenance record: the asset and user involved, start and end times, diagnosis, actions taken and final status. */
module Mantenimiento {
  import opened Options
  import opened Values
  import opened Repository
  import Service

  /** The entity's columns other than its generated key; a relation is the key of the row it refers to. */
  datatype Mantenimiento = Mantenimiento(
    activo: Option<Id>,  // id_activo: the Activo row
    usuario: Option<Id>,  // id_usuario: the Usuario row
    fechaInicio: Option<LocalDateTime>,
    fechaFin: Option<LocalDateTime>,
    diagnostico: Option<string>,
    accionesRealizadas: Option<string>,
    estatusFinal: Option<string>)

  /** The creation and update payload: the same fields, each of which the client may leave null. */
  datatype CreateMantenimientoDto = CreateMantenimientoDto(
    activo: Option<Id>,
    usuario: Option<Id>,
    fechaInicio: Option<LocalDateTime>,
    fechaFin: Option<LocalDateTime>,
    diagnostico: Option<string>,
    accionesRealizadas: Option<string>,
    estatusFinal: Option<string>)

  /** A newly constructed Mantenimiento: every column null. */
  const Blank: Mantenimiento := Mantenimiento(None, None, None, None, None, None, None)

  /**
   * Starting from a blank entity, copies each DTO field that is non-null:
   * every column ends up with the DTO's value, and a null field leaves it null.
   */
  function MapMantenimiento(dto: CreateMantenimientoDto): (e: Mantenimiento)
    ensures e.activo == dto.activo
    ensures e.usuario == dto.usuario
    ensures e.fechaInicio == dto.fechaInicio
    ensures e.fechaFin == dto.fechaFin
    ensures e.diagnostico == dto.diagnostico
    ensures e.accionesRealizadas == dto.accionesRealizadas
    ensures e.estatusFinal == dto.estatusFinal
  {
    Mantenimiento(
      activo := if dto.activo.Some? then dto.activo else Blank.activo,
      usuario := if dto.usuario.Some? then dto.usuario else Blank.usuario,
      fechaInicio := if dto.fechaInicio.Some? then dto.fechaInicio else Blank.fechaInicio,
      fechaFin := if dto.fechaFin.Some? then dto.fechaFin else Blank.fechaFin,
      diagnostico := if dto.diagnostico.Some? then dto.diagnostico else Blank.diagnostico,
      accionesRealizadas := if dto.accionesRealizadas.Some? then dto.accionesRealizadas else Blank.accionesRealizadas,
      estatusFinal := if dto.estatusFinal.Some? then dto.estatusFinal else Blank.estatusFinal)
  }

  /** MantenimientoService: its response key, its messages and its mapper. */
  const MantenimientoService: Service.Config<CreateMantenimientoDto, Mantenimiento> :=
    Service.Config("mantenimiento", "Mantenimiento no encontrado", "Mantenimiento eliminado correctamente", MapMantenimiento)

  /**
   * MantenimientoService on a well-formed table: "Mantenimiento no encontrado" with no change when the key is
   * absent; otherwise the row, MapMantenimiento(dto) under the same key, or removal
   * with "Mantenimiento eliminado correctamente"; create stores MapMantenimiento(dto) under a fresh key.
   */
  lemma MantenimientoServiceContract(s: Store<Mantenimiento>, id: Id, dto: CreateMantenimientoDto)
    requires Valid(s)
    ensures id !in s.rows ==>
      && Service.GetById(MantenimientoService, s, id) == Service.NotFound("Mantenimiento no encontrado")
      && Service.Update(MantenimientoService, s, id, dto) == Service.Reply(Service.NotFound("Mantenimiento no encontrado"), s)
      && Service.Delete(MantenimientoService, s, id) == Service.Reply(Service.NotFound("Mantenimiento no encontrado"), s)
    ensures id in s.rows ==>
      && Service.GetById(MantenimientoService, s, id) == Service.Ok("mantenimiento", s.rows[id])
      && Service.Update(MantenimientoService, s, id, dto).response == Service.Ok("mantenimiento", Entity(Some(id), MapMantenimiento(dto)))
      && Service.Update(MantenimientoService, s, id, dto).store.rows[id] == Entity(Some(id), MapMantenimiento(dto))
      && Service.Delete(MantenimientoService, s, id).response == Service.Deleted("Mantenimiento eliminado correctamente")
    ensures var c := Service.Create(MantenimientoService, s, dto);
      && s.nextId !in s.rows
      && c.response == Service.Created("mantenimiento", Entity(Some(s.nextId), MapMantenimiento(dto)))
      && c.store.rows[s.nextId] == Entity(Some(s.nextId), MapMantenimiento(dto))
  {
  }
}
