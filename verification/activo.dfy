/** An asset: its type, its location, its tag, status, description, acquisition date, cost and QR-code URL. */
module Activo {
  import opened Options
  import opened Values
  import opened Repository
  import Service

  /** The entity's columns other than its generated key; a relation is the key of the row it refers to. */
  datatype Activo = Activo(
    tipoActivo: Option<Id>,  // id_tipo_activo: the TipoActivo row
    ubicacion: Option<Id>,  // id_ubicacion: the Ubicacion row
    etiquetaProducto: Option<string>,
    estatus: Option<char>,  // CHAR(1)
    descripcion: Option<string>,
    fechaAlta: Option<LocalDate>,
    costo: Option<BigDecimal>,
    qrCodeUrl: Option<string>)

  /** The creation and update payload: the same fields, each of which the client may leave null. */
  datatype CreateActivoDto = CreateActivoDto(
    tipoActivo: Option<Id>,
    ubicacion: Option<Id>,
    etiquetaProducto: Option<string>,
    estatus: Option<char>,
    descripcion: Option<string>,
    fechaAlta: Option<LocalDate>,
    costo: Option<BigDecimal>,
    qrCodeUrl: Option<string>)

  /** A newly constructed Activo: every column null. */
  const Blank: Activo := Activo(None, None, None, None, None, None, None, None)

  /**
   * Starting from a blank entity, copies each DTO field that is non-null:
   * every column ends up with the DTO's value, and a null field leaves it null.
   */
  function MapActivo(dto: CreateActivoDto): (e: Activo)
    ensures e.tipoActivo == dto.tipoActivo
    ensures e.ubicacion == dto.ubicacion
    ensures e.etiquetaProducto == dto.etiquetaProducto
    ensures e.estatus == dto.estatus
    ensures e.descripcion == dto.descripcion
    ensures e.fechaAlta == dto.fechaAlta
    ensures e.costo == dto.costo
    ensures e.qrCodeUrl == dto.qrCodeUrl
  {
    Activo(
      tipoActivo := if dto.tipoActivo.Some? then dto.tipoActivo else Blank.tipoActivo,
      ubicacion := if dto.ubicacion.Some? then dto.ubicacion else Blank.ubicacion,
      etiquetaProducto := if dto.etiquetaProducto.Some? then dto.etiquetaProducto else Blank.etiquetaProducto,
      estatus := if dto.estatus.Some? then dto.estatus else Blank.estatus,
      descripcion := if dto.descripcion.Some? then dto.descripcion else Blank.descripcion,
      fechaAlta := if dto.fechaAlta.Some? then dto.fechaAlta else Blank.fechaAlta,
      costo := if dto.costo.Some? then dto.costo else Blank.costo,
      qrCodeUrl := if dto.qrCodeUrl.Some? then dto.qrCodeUrl else Blank.qrCodeUrl)
  }

  /** ActivoService: its response key, its messages and its mapper. */
  const ActivoService: Service.Config<CreateActivoDto, Activo> :=
    Service.Config("activo", "Activo no encontrado", "Activo eliminado correctamente", MapActivo)

  /**
   * ActivoService on a well-formed table: "Activo no encontrado" with no change when the key is
   * absent; otherwise the row, MapActivo(dto) under the same key, or removal
   * with "Activo eliminado correctamente"; create stores MapActivo(dto) under a fresh key.
   */
  lemma ActivoServiceContract(s: Store<Activo>, id: Id, dto: CreateActivoDto)
    requires Valid(s)
    ensures id !in s.rows ==>
      && Service.GetById(ActivoService, s, id) == Service.NotFound("Activo no encontrado")
      && Service.Update(ActivoService, s, id, dto) == Service.Reply(Service.NotFound("Activo no encontrado"), s)
      && Service.Delete(ActivoService, s, id) == Service.Reply(Service.NotFound("Activo no encontrado"), s)
    ensures id in s.rows ==>
      && Service.GetById(ActivoService, s, id) == Service.Ok("activo", s.rows[id])
      && Service.Update(ActivoService, s, id, dto).response == Service.Ok("activo", Entity(Some(id), MapActivo(dto)))
      && Service.Update(ActivoService, s, id, dto).store.rows[id] == Entity(Some(id), MapActivo(dto))
      && Service.Delete(ActivoService, s, id).response == Service.Deleted("Activo eliminado correctamente")
    ensures var c := Service.Create(ActivoService, s, dto);
      && s.nextId !in s.rows
      && c.response == Service.Created("activo", Entity(Some(s.nextId), MapActivo(dto)))
      && c.store.rows[s.nextId] == Entity(Some(s.nextId), MapActivo(dto))
  {
  }

  /**
   * update is not a patch: a column the DTO leaves null is null in the saved
   * row, whatever the old row held there.
   */
  lemma UpdateNullsOmittedColumns(s: Store<Activo>, id: Id, dto: CreateActivoDto)
    requires Valid(s) && id in s.rows
    ensures Service.Update(ActivoService, s, id, dto).store.rows[id].id == Some(id)
    ensures var saved := Service.Update(ActivoService, s, id, dto).store.rows[id].fields;
      && (dto.tipoActivo.None? ==> saved.tipoActivo.None?)
      && (dto.ubicacion.None? ==> saved.ubicacion.None?)
      && (dto.etiquetaProducto.None? ==> saved.etiquetaProducto.None?)
      && (dto.estatus.None? ==> saved.estatus.None?)
      && (dto.descripcion.None? ==> saved.descripcion.None?)
      && (dto.fechaAlta.None? ==> saved.fechaAlta.None?)
      && (dto.costo.None? ==> saved.costo.None?)
      && (dto.qrCodeUrl.None? ==> saved.qrCodeUrl.None?)
  {
  }
}
