/** A custody assignment: the asset and the user holding it, assignment and return times, return status and video URL. */
module Resguardo {
  import opened Options
  import opened Values
  import opened Repository
  import Service

  /** The entity's columns other than its generated key; a relation is the key of the row it refers to. */
  datatype Resguardo = Resguardo(
    activo: Option<Id>,  // id_activo: the Activo row
    usuario: Option<Id>,  // id_usuario: the Usuario row
    fechaAsignacion: Option<LocalDateTime>,
    fechaDevolucion: Option<LocalDateTime>,
    estatusDevolucion: Option<string>,
    videoUrl: Option<string>)

  /** The creation and update payload: the same fields, each of which the client may leave null. */
  datatype CreateResguardoDto = CreateResguardoDto(
    activo: Option<Id>,
    usuario: Option<Id>,
    fechaAsignacion: Option<LocalDateTime>,
    fechaDevolucion: Option<LocalDateTime>,
    estatusDevolucion: Option<string>,
    videoUrl: Option<string>)

  /** A newly constructed Resguardo: every column null. */
  const Blank: Resguardo := Resguardo(None, None, None, None, None, None)

  /**
   * Starting from a blank entity, copies each DTO field that is non-null:
   * every column ends up with the DTO's value, and a null field leaves it null.
   */
  function MapResguardo(dto: CreateResguardoDto): (e: Resguardo)
    ensures e.activo == dto.activo
    ensures e.usuario == dto.usuario
    ensures e.fechaAsignacion == dto.fechaAsignacion
    ensures e.fechaDevolucion == dto.fechaDevolucion
    ensures e.estatusDevolucion == dto.estatusDevolucion
    ensures e.videoUrl == dto.videoUrl
  {
    Resguardo(
      activo := if dto.activo.Some? then dto.activo else Blank.activo,
      usuario := if dto.usuario.Some? then dto.usuario else Blank.usuario,
      fechaAsignacion := if dto.fechaAsignacion.Some? then dto.fechaAsignacion else Blank.fechaAsignacion,
      fechaDevolucion := if dto.fechaDevolucion.Some? then dto.fechaDevolucion else Blank.fechaDevolucion,
      estatusDevolucion := if dto.estatusDevolucion.Some? then dto.estatusDevolucion else Blank.estatusDevolucion,
      videoUrl := if dto.videoUrl.Some? then dto.videoUrl else Blank.videoUrl)
  }

  /** ResguardoService: its response key, its messages and its mapper. */
  const ResguardoService: Service.Config<CreateResguardoDto, Resguardo> :=
    Service.Config("resguardo", "Resguardo no encontrado", "Resguardo eliminado correctamente", MapResguardo)

  /**
   * ResguardoService on a well-formed table: "Resguardo no encontrado" with no change when the key is
   * absent; otherwise the row, MapResguardo(dto) under the same key, or removal
   * with "Resguardo eliminado correctamente"; create stores MapResguardo(dto) under a fresh key.
   */
  lemma ResguardoServiceContract(s: Store<Resguardo>, id: Id, dto: CreateResguardoDto)
    requires Valid(s)
    ensures id !in s.rows ==>
      && Service.GetById(ResguardoService, s, id) == Service.NotFound("Resguardo no encontrado")
      && Service.Update(ResguardoService, s, id, dto) == Service.Reply(Service.NotFound("Resguardo no encontrado"), s)
      && Service.Delete(ResguardoService, s, id) == Service.Reply(Service.NotFound("Resguardo no encontrado"), s)
    ensures id in s.rows ==>
      && Service.GetById(ResguardoService, s, id) == Service.Ok("resguardo", s.rows[id])
      && Service.Update(ResguardoService, s, id, dto).response == Service.Ok("resguardo", Entity(Some(id), MapResguardo(dto)))
      && Service.Update(ResguardoService, s, id, dto).store.rows[id] == Entity(Some(id), MapResguardo(dto))
      && Service.Delete(ResguardoService, s, id).response == Service.Deleted("Resguardo eliminado correctamente")
    ensures var c := Service.Create(ResguardoService, s, dto);
      && s.nextId !in s.rows
      && c.response == Service.Created("resguardo", Entity(Some(s.nextId), MapResguardo(dto)))
      && c.store.rows[s.nextId] == Entity(Some(s.nextId), MapResguardo(dto))
  {
  }
}
