/** An incident report: the asset, its priority, the reporting user, the time and a video reference. */
module Reporte {
  import opened Options
  import opened Values
  import opened Repository
  import Service

  /** The entity's columns other than its generated key; a relation is the key of the row it refers to. */
  datatype Reporte = Reporte(
    activo: Option<Id>,  // id_activo: the Activo row
    prioridad: Option<Id>,  // id_prioridad: the Prioridad row
    usuario: Option<Id>,  // id_usuario: the Usuario row
    fechaReporte: Option<LocalDateTime>,
    video: Option<string>)

  /** The creation and update payload: the same fields, each of which the client may leave null. */
  datatype CreateReporteDto = CreateReporteDto(
    activo: Option<Id>,
    prioridad: Option<Id>,
    usuario: Option<Id>,
    fechaReporte: Option<LocalDateTime>,
    video: Option<string>)

  /** A newly constructed Reporte: every column null. */
  const Blank: Reporte := Reporte(None, None, None, None, None)

  /**
   * Starting from a blank entity, copies each DTO field that is non-null:
   * every column ends up with the DTO's value, and a null field leaves it null.
   */
  function MapReporte(dto: CreateReporteDto): (e: Reporte)
    ensures e.activo == dto.activo
    ensures e.prioridad == dto.prioridad
    ensures e.usuario == dto.usuario
    ensures e.fechaReporte == dto.fechaReporte
    ensures e.video == dto.video
  {
    Reporte(
      activo := if dto.activo.Some? then dto.activo else Blank.activo,
      prioridad := if dto.prioridad.Some? then dto.prioridad else Blank.prioridad,
      usuario := if dto.usuario.Some? then dto.usuario else Blank.usuario,
      fechaReporte := if dto.fechaReporte.Some? then dto.fechaReporte else Blank.fechaReporte,
      video := if dto.video.Some? then dto.video else Blank.video)
  }

  /** ReporteService: its response key, its messages and its mapper. */
  const ReporteService: Service.Config<CreateReporteDto, Reporte> :=
    Service.Config("reporte", "Reporte no encontrado", "Reporte eliminado correctamente", MapReporte)

  /**
   * ReporteService on a well-formed table: "Reporte no encontrado" with no change when the key is
   * absent; otherwise the row, MapReporte(dto) under the same key, or removal
   * with "Reporte eliminado correctamente"; create stores MapReporte(dto) under a fresh key.
   */
  lemma ReporteServiceContract(s: Store<Reporte>, id: Id, dto: CreateReporteDto)
    requires Valid(s)
    ensures id !in s.rows ==>
      && Service.GetById(ReporteService, s, id) == Service.NotFound("Reporte no encontrado")
      && Service.Update(ReporteService, s, id, dto) == Service.Reply(Service.NotFound("Reporte no encontrado"), s)
      && Service.Delete(ReporteService, s, id) == Service.Reply(Service.NotFound("Reporte no encontrado"), s)
    ensures id in s.rows ==>
      && Service.GetById(ReporteService, s, id) == Service.Ok("reporte", s.rows[id])
      && Service.Update(ReporteService, s, id, dto).response == Service.Ok("reporte", Entity(Some(id), MapReporte(dto)))
      && Service.Update(ReporteService, s, id, dto).store.rows[id] == Entity(Some(id), MapReporte(dto))
      && Service.Delete(ReporteService, s, id).response == Service.Deleted("Reporte eliminado correctamente")
    ensures var c := Service.Create(ReporteService, s, dto);
      && s.nextId !in s.rows
      && c.response == Service.Created("reporte", Entity(Some(s.nextId), MapReporte(dto)))
      && c.store.rows[s.nextId] == Entity(Some(s.nextId), MapReporte(dto))
  {
  }
}
