/** A location: campus, building, classroom, laboratory and description. */
module Ubicacion {
  import opened Options
  import opened Repository
  import Service

  /** The entity's columns other than its generated key. */
  datatype Ubicacion = Ubicacion(
    campus: Option<string>,
    edificio: Option<string>,
    aula: Option<string>,
    laboratorio: Option<string>,
    descripcion: Option<string>)

  /** The creation and update payload: the same fields, each of which the client may leave null. */
  datatype CreateUbicacionDto = CreateUbicacionDto(
    campus: Option<string>,
    edificio: Option<string>,
    aula: Option<string>,
    laboratorio: Option<string>,
    descripcion: Option<string>)

  /** A newly constructed Ubicacion: every column null. */
  const Blank: Ubicacion := Ubicacion(None, None, None, None, None)

  /**
   * Starting from a blank entity, copies each DTO field that is non-null:
   * every column ends up with the DTO's value, and a null field leaves it null.
   */
  function MapUbicacion(dto: CreateUbicacionDto): (e: Ubicacion)
    ensures e.campus == dto.campus
    ensures e.edificio == dto.edificio
    ensures e.aula == dto.aula
    ensures e.laboratorio == dto.laboratorio
    ensures e.descripcion == dto.descripcion
  {
    Ubicacion(
      campus := if dto.campus.Some? then dto.campus else Blank.campus,
      edificio := if dto.edificio.Some? then dto.edificio else Blank.edificio,
      aula := if dto.aula.Some? then dto.aula else Blank.aula,
      laboratorio := if dto.laboratorio.Some? then dto.laboratorio else Blank.laboratorio,
      descripcion := if dto.descripcion.Some? then dto.descripcion else Blank.descripcion)
  }

  /** UbicacionService: its response key, its messages and its mapper. */
  const UbicacionService: Service.Config<CreateUbicacionDto, Ubicacion> :=
    Service.Config("ubicacion", "Ubicación no encontrada", "Ubicación eliminada correctamente", MapUbicacion)

  /**
   * UbicacionService on a well-formed table: "Ubicación no encontrada" with no change when the key is
   * absent; otherwise the row, MapUbicacion(dto) under the same key, or removal
   * with "Ubicación eliminada correctamente"; create stores MapUbicacion(dto) under a fresh key.
   */
  lemma UbicacionServiceContract(s: Store<Ubicacion>, id: Id, dto: CreateUbicacionDto)
    requires Valid(s)
    ensures id !in s.rows ==>
      && Service.GetById(UbicacionService, s, id) == Service.NotFound("Ubicación no encontrada")
      && Service.Update(UbicacionService, s, id, dto) == Service.Reply(Service.NotFound("Ubicación no encontrada"), s)
      && Service.Delete(UbicacionService, s, id) == Service.Reply(Service.NotFound("Ubicación no encontrada"), s)
    ensures id in s.rows ==>
      && Service.GetById(UbicacionService, s, id) == Service.Ok("ubicacion", s.rows[id])
      && Service.Update(UbicacionService, s, id, dto).response == Service.Ok("ubicacion", Entity(Some(id), MapUbicacion(dto)))
      && Service.Update(UbicacionService, s, id, dto).store.rows[id] == Entity(Some(id), MapUbicacion(dto))
      && Service.Delete(UbicacionService, s, id).response == Service.Deleted("Ubicación eliminada correctamente")
    ensures var c := Service.Create(UbicacionService, s, dto);
      && s.nextId !in s.rows
      && c.response == Service.Created("ubicacion", Entity(Some(s.nextId), MapUbicacion(dto)))
      && c.store.rows[s.nextId] == Entity(Some(s.nextId), MapUbicacion(dto))
  {
  }
}
