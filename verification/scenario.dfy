/**
 * An end-to-end run across two services: register an asset type, register
 * an asset of that type, read it back, delete it, read it again.
 */
module Scenario {
  import opened Options
  import opened Values
  import opened Repository
  import Service
  import TipoActivo
  import Activo

  lemma RegisterReadDeleteRead(tipos: Store<TipoActivo.TipoActivo>, activos: Store<Activo.Activo>, ubicacion: Id)
    requires Valid(tipos) && Valid(activos)
    ensures
      var t := Service.Create(TipoActivo.TipoActivoService, tipos,
        TipoActivo.CreateTipoActivoDto(Some("Laptop"), Some("Dell"), Some("5420")));
      var n := t.response.entity.id.value;
      var dto := Activo.CreateActivoDto(Some(n), Some(ubicacion), Some("AST-001"), Some('A'), None,
        Some(LocalDate(2024, 1, 1)), Some(BigDecimal(1500000, 2)), Some("http://x/q1"));
      var a := Service.Create(Activo.ActivoService, activos, dto);
      var m := a.response.entity.id.value;
      var found := Service.GetById(Activo.ActivoService, a.store, m);
      var d := Service.Delete(Activo.ActivoService, a.store, m);
      && t.response.Code() == 201 && n !in tipos.rows
      && a.response.Code() == 201 && m !in activos.rows
      && found == Service.Ok("activo", Entity(Some(m), Activo.Activo(Some(n), Some(ubicacion), Some("AST-001"),
           Some('A'), None, Some(LocalDate(2024, 1, 1)), Some(BigDecimal(1500000, 2)), Some("http://x/q1"))))
      && d.response.Code() == 204
      && Service.GetById(Activo.ActivoService, d.store, m).Code() == 404
  {
  }
}
