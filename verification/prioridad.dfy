/** A priority level and its description. */
module Prioridad {
  import opened Options
  import opened Repository
  import Service

  /** The entity's columns other than its generated key. */
  datatype Prioridad = Prioridad(
    nivel: Option<char>,  // CHAR(1)
    descripcion: Option<string>)

  /** The creation and update payload: the same fields, each of which the client may leave null. */
  datatype CreatePrioridadDto = CreatePrioridadDto(
    nivel: Option<char>,
    descripcion: Option<string>)

  /** A newly constructed Prioridad: every column null. */
  const Blank: Prioridad := Prioridad(None, None)

  /**
   * Starting from a blank entity, copies each DTO field that is non-null:
   * every column ends up with the DTO's value, and a null field leaves it null.
   */
  function MapPrioridad(dto: CreatePrioridadDto): (e: Prioridad)
    ensures e.nivel == dto.nivel
    ensures e.descripcion == dto.descripcion
  {
    Prioridad(
      nivel := if dto.nivel.Some? then dto.nivel else Blank.nivel,
      descripcion := if dto.descripcion.Some? then dto.descripcion else Blank.descripcion)
  }

  /** PrioridadService: its response key, its messages and its mapper. */
  const PrioridadService: Service.Config<CreatePrioridadDto, Prioridad> :=
    Service.Config("prioridad", "Prioridad no encontrada", "Prioridad eliminada correctamente", MapPrioridad)

  /**
   * PrioridadService on a well-formed table: "Prioridad no encontrada" with no change when the key is
   * absent; otherwise the row, MapPrioridad(dto) under the same key, or removal
   * with "Prioridad eliminada correctamente"; create stores MapPrioridad(dto) under a fresh key.
   */
  lemma PrioridadServiceContract(s: Store<Prioridad>, id: Id, dto: CreatePrioridadDto)
    requires Valid(s)
    ensures id !in s.rows ==>
      && Service.GetById(PrioridadService, s, id) == Service.NotFound("Prioridad no encontrada")
      && Service.Update(PrioridadService, s, id, dto) == Service.Reply(Service.NotFound("Prioridad no encontrada"), s)
      && Service.Delete(PrioridadService, s, id) == Service.Reply(Service.NotFound("Prioridad no encontrada"), s)
    ensures id in s.rows ==>
      && Service.GetById(PrioridadService, s, id) == Service.Ok("prioridad", s.rows[id])
      && Service.Update(PrioridadService, s, id, dto).response == Service.Ok("prioridad", Entity(Some(id), MapPrioridad(dto)))
      && Service.Update(PrioridadService, s, id, dto).store.rows[id] == Entity(Some(id), MapPrioridad(dto))
      && Service.Delete(PrioridadService, s, id).response == Service.Deleted("Prioridad eliminada correctamente")
    ensures var c := Service.Create(PrioridadService, s, dto);
      && s.nextId !in s.rows
      && c.response == Service.Created("prioridad", Entity(Some(s.nextId), MapPrioridad(dto)))
      && c.store.rows[s.nextId] == Entity(Some(s.nextId), MapPrioridad(dto))
  {
  }
}
