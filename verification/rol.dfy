/** A role. Only the column the mapper sets, nombreRol, is modelled. */
module Rol {
  import opened Options
  import opened Repository
  import Service

  /** The entity's columns other than its generated key. */
  datatype Rol = Rol(
    nombreRol: Option<string>)

  /** The creation and update payload: the same fields, each of which the client may leave null. */
  datatype CreateRolDto = CreateRolDto(
    nombreRol: Option<string>)

  /** A newly constructed Rol: every column null. */
  const Blank: Rol := Rol(None)

  /**
   * Starting from a blank entity, copies each DTO field that is non-null:
   * every column ends up with the DTO's value, and a null field leaves it null.
   */
  function MapRol(dto: CreateRolDto): (e: Rol)
    ensures e.nombreRol == dto.nombreRol
  {
    Rol(nombreRol := if dto.nombreRol.Some? then dto.nombreRol else Blank.nombreRol)
  }

  /** RolService: its response key, its messages and its mapper. */
  const RolService: Service.Config<CreateRolDto, Rol> :=
    Service.Config("rol", "Rol no encontrado", "Rol eliminado correctamente", MapRol)

  /**
   * RolService on a well-formed table: "Rol no encontrado" with no change when the key is
   * absent; otherwise the row, MapRol(dto) under the same key, or removal
   * with "Rol eliminado correctamente"; create stores MapRol(dto) under a fresh key.
   */
  lemma RolServiceContract(s: Store<Rol>, id: Id, dto: CreateRolDto)
    requires Valid(s)
    ensures id !in s.rows ==>
      && Service.GetById(RolService, s, id) == Service.NotFound("Rol no encontrado")
      && Service.Update(RolService, s, id, dto) == Service.Reply(Service.NotFound("Rol no encontrado"), s)
      && Service.Delete(RolService, s, id) == Service.Reply(Service.NotFound("Rol no encontrado"), s)
    ensures id in s.rows ==>
      && Service.GetById(RolService, s, id) == Service.Ok("rol", s.rows[id])
      && Service.Update(RolService, s, id, dto).response == Service.Ok("rol", Entity(Some(id), MapRol(dto)))
      && Service.Update(RolService, s, id, dto).store.rows[id] == Entity(Some(id), MapRol(dto))
      && Service.Delete(RolService, s, id).response == Service.Deleted("Rol eliminado correctamente")
    ensures var c := Service.Create(RolService, s, dto);
      && s.nextId !in s.rows
      && c.response == Service.Created("rol", Entity(Some(s.nextId), MapRol(dto)))
      && c.store.rows[s.nextId] == Entity(Some(s.nextId), MapRol(dto))
  {
  }
}
