/** A user: role, employee number, name, surnames, CURP, status, e-mail, password and area. */
module Usuario {
  import opened Options
  import opened Repository
  import Service

  /** The entity's columns other than its generated key; a relation is the key of the row it refers to. */
  datatype Usuario = Usuario(
    rol: Option<Id>,  // id_rol: the Rol row
    matriculaEmpleado: Option<string>,
    nombreCompleto: Option<string>,
    apellidos: Option<string>,
    curp: Option<string>,
    estatus: Option<char>,  // CHAR(1)
    correo: Option<string>,
    contrasenia: Option<string>,
    area: Option<string>)

  /** The creation and update payload: the same fields, each of which the client may leave null. */
  datatype CreateUsuarioDto = CreateUsuarioDto(
    rol: Option<Id>,
    matriculaEmpleado: Option<string>,
    nombreCompleto: Option<string>,
    apellidos: Option<string>,
    curp: Option<string>,
    estatus: Option<char>,
    correo: Option<string>,
    contrasenia: Option<string>,
    area: Option<string>)

  /** A newly constructed Usuario: every column null. */
  const Blank: Usuario := Usuario(None, None, None, None, None, None, None, None, None)

  /**
   * Starting from a blank entity, copies each DTO field that is non-null:
   * every column ends up with the DTO's value, and a null field leaves it null.
   */
  function MapUsuario(dto: CreateUsuarioDto): (e: Usuario)
    ensures e.rol == dto.rol
    ensures e.matriculaEmpleado == dto.matriculaEmpleado
    ensures e.nombreCompleto == dto.nombreCompleto
    ensures e.apellidos == dto.apellidos
    ensures e.curp == dto.curp
    ensures e.estatus == dto.estatus
    ensures e.correo == dto.correo
    ensures e.contrasenia == dto.contrasenia
    ensures e.area == dto.area
  {
    Usuario(
      rol := if dto.rol.Some? then dto.rol else Blank.rol,
      matriculaEmpleado := if dto.matriculaEmpleado.Some? then dto.matriculaEmpleado else Blank.matriculaEmpleado,
      nombreCompleto := if dto.nombreCompleto.Some? then dto.nombreCompleto else Blank.nombreCompleto,
      apellidos := if dto.apellidos.Some? then dto.apellidos else Blank.apellidos,
      curp := if dto.curp.Some? then dto.curp else Blank.curp,
      estatus := if dto.estatus.Some? then dto.estatus else Blank.estatus,
      correo := if dto.correo.Some? then dto.correo else Blank.correo,
      contrasenia := if dto.contrasenia.Some? then dto.contrasenia else Blank.contrasenia,
      area := if dto.area.Some? then dto.area else Blank.area)
  }

  /** UsuarioService: its response key, its messages and its mapper. */
  const UsuarioService: Service.Config<CreateUsuarioDto, Usuario> :=
    Service.Config("usuario", "Usuario no encontrado", "Usuario eliminado correctamente", MapUsuario)

  /**
   * UsuarioService on a well-formed table: "Usuario no encontrado" with no change when the key is
   * absent; otherwise the row, MapUsuario(dto) under the same key, or removal
   * with "Usuario eliminado correctamente"; create stores MapUsuario(dto) under a fresh key.
   */
  lemma UsuarioServiceContract(s: Store<Usuario>, id: Id, dto: CreateUsuarioDto)
    requires Valid(s)
    ensures id !in s.rows ==>
      && Service.GetById(UsuarioService, s, id) == Service.NotFound("Usuario no encontrado")
      && Service.Update(UsuarioService, s, id, dto) == Service.Reply(Service.NotFound("Usuario no encontrado"), s)
      && Service.Delete(UsuarioService, s, id) == Service.Reply(Service.NotFound("Usuario no encontrado"), s)
    ensures id in s.rows ==>
      && Service.GetById(UsuarioService, s, id) == Service.Ok("usuario", s.rows[id])
      && Service.Update(UsuarioService, s, id, dto).response == Service.Ok("usuario", Entity(Some(id), MapUsuario(dto)))
      && Service.Update(UsuarioService, s, id, dto).store.rows[id] == Entity(Some(id), MapUsuario(dto))
      && Service.Delete(UsuarioService, s, id).response == Service.Deleted("Usuario eliminado correctamente")
    ensures var c := Service.Create(UsuarioService, s, dto);
      && s.nextId !in s.rows
      && c.response == Service.Created("usuario", Entity(Some(s.nextId), MapUsuario(dto)))
      && c.store.rows[s.nextId] == Entity(Some(s.nextId), MapUsuario(dto))
  {
  }

  /**
   * update is not a patch: a column the DTO leaves null is null in the
   * entity handed to save, whatever the old row held there. Most of these
   * columns are NOT NULL, and there the database refuses the save instead;
   * the model does not check column constraints.
   */
  lemma UpdateNullsOmittedColumns(s: Store<Usuario>, id: Id, dto: CreateUsuarioDto)
    requires Valid(s) && id in s.rows
    ensures Service.Update(UsuarioService, s, id, dto).store.rows[id].id == Some(id)
    ensures var saved := Service.Update(UsuarioService, s, id, dto).store.rows[id].fields;
      && (dto.rol.None? ==> saved.rol.None?)
      && (dto.matriculaEmpleado.None? ==> saved.matriculaEmpleado.None?)
      && (dto.nombreCompleto.None? ==> saved.nombreCompleto.None?)
      && (dto.apellidos.None? ==> saved.apellidos.None?)
      && (dto.curp.None? ==> saved.curp.None?)
      && (dto.estatus.None? ==> saved.estatus.None?)
      && (dto.correo.None? ==> saved.correo.None?)
      && (dto.contrasenia.None? ==> saved.contrasenia.None?)
      && (dto.area.None? ==> saved.area.None?)
  {
  }
}
