# SIRMA service layer — a Dafny model

SIRMA is the back end of an institutional asset-management system. It tracks
assets (Activo) and their maintenance records, incident reports, custody
assignments, users, roles, priorities, locations and asset types. Each of the
nine entities has a Spring service class with the same five operations:

- `getAll` answers 200 with the whole table.
- `getById` answers 200 with the row, or 404 with a fixed message.
- `create` maps the DTO onto a new entity, saves it and answers 201.
- `update` answers 404 if the key is absent. Otherwise it maps the DTO onto a
  new entity, gives it the existing row's id, saves it and answers 200.
- `delete` answers 404 if the key is absent, otherwise deletes and answers 204.

A shared utility, `HandleStatus.getStatus`, turns the numeric code of a
response into the HTTP status the controller answers with.

This project models that service layer and the status lookup:

- `Repository` is one table with an IDENTITY primary key. It holds the rows
  by key and the next counter value, and gives the JPA operations the
  services call (`findById`, `save`, `deleteById`, `findAll`). `Valid` is
  what the database guarantees: every key came from the counter, which starts
  at 1, and every row carries its own key.
- `Service` writes the five operations once, over the entity's columns and
  its DTO. Each is a pure function from a table and the arguments to a
  response and the new table. `getAll` is a method, because listing a map
  needs a loop. `getAll` and `getById` return only a response, so they
  cannot change the table. The response map becomes the datatype `Response`.
  Its "success" entry is `Code()`.
- The nine entity modules (`Activo`, `Mantenimiento`, `Usuario`,
  `Resguardo`, `Ubicacion`, `TipoActivo`, `Reporte`, `Prioridad`, `Rol`)
  each give the entity's columns, its DTO, its `mapX` function, and the
  service's response key and messages.
- `HandleStatus` is the code-to-status lookup. `Controller.StatusOf` is what
  every endpoint does with a service response.
- `History` runs a sequence of write requests. It proves that the store
  invariant survives any run, and that a deleted key never comes back.
- `Scenario` is the end-to-end run: register an asset type, register an
  asset of it, read it, delete it, read it again.

Each mapper copies only the DTO's non-null fields into a new entity, as its
doc comment says (ActivoService.java:130). `update` does not edit the loaded
row: it builds a new entity with `mapX` and gives it the found key. So a
field the DTO leaves null is null in the entity handed to `save`, whatever
the old row held there. `Service.UpdateIgnoresOldRow`,
`Activo.UpdateNullsOmittedColumns` and `Usuario.UpdateNullsOmittedColumns`
state that behaviour. What happens next depends on the column. Every column
of Mantenimiento, Reporte and Resguardo is nullable (Mantenimiento.java:22-43,
Reporte.java:22-38, Resguardo.java:22-40). So are Ubicacion's aula,
laboratorio and descripcion, Prioridad's descripcion, Activo's descripcion
and Usuario's rol. For all of these, update silently replaces the old value
with null. The other columns are NOT NULL: most of Activo's and Usuario's
(Activo.java:24-46, Usuario.java:24-46), all three of TipoActivo's
(TipoActivo.java:20-27), Ubicacion's campus and edificio (Ubicacion.java:20-24)
and Prioridad's nivel (Prioridad.java:20-21). For those, the database refuses
the save and the old value survives. The model does not check column constraints, so it stores the
null in both cases.

The nine service files are copies of one shape at the same line numbers. The
rows below cite `ActivoService.java` for the generic operations, and each
entity's own file for its mapper and messages.

## Model

| member | source | states |
|---|---|---|
| HandleStatus.GetStatus | back/sirma/src/main/java/mx/edu/utez/util/HandleStatus.java:17-30 | a code is one of the eight recognised ones iff the status is not INTERNAL_SERVER_ERROR; a recognised code maps to the status whose HTTP value is that code |
| HandleStatus.GetStatusInvertsValue | back/sirma/src/main/java/mx/edu/utez/util/HandleStatus.java:17-30 | the lookup is total and returns every status from its own HTTP value, so distinct statuses come from distinct codes |
| HandleStatus.SuccessCodes | back/sirma/src/main/java/mx/edu/utez/util/HandleStatus.java:20-22 | 200, 201 and 204 map to OK, CREATED and NO_CONTENT |
| HandleStatus.ClientErrorCodes | back/sirma/src/main/java/mx/edu/utez/util/HandleStatus.java:23-27 | 400, 401, 403, 404 and 409 map to BAD_REQUEST, UNAUTHORIZED, FORBIDDEN, NOT_FOUND and CONFLICT |
| HandleStatus.UnknownCodesAreServerErrors | back/sirma/src/main/java/mx/edu/utez/util/HandleStatus.java:28 | any integer outside the eight codes maps to INTERNAL_SERVER_ERROR |
| HandleStatus.RecognisedCodesAreDistinguished | back/sirma/src/main/java/mx/edu/utez/util/HandleStatus.java:19-27 | two different recognised codes never give the same status |
| HandleStatus.ServiceCodesAreRecognised | back/sirma/src/main/java/mx/edu/utez/util/HandleStatus.java:20-26 | 200, 201, 204 and 404 never reach the default branch and keep their numeric value |
| Controller.StatusOf | back/sirma/src/main/java/mx/edu/utez/controllers/ActivoController.java:37-39 | an endpoint's status has the same number as the response's "success" code, is never the server-error default, and is OK exactly for a listing or a single row, CREATED exactly for create, NO_CONTENT exactly for delete, and NOT_FOUND exactly for a 404 response |
| Repository.Empty | back/sirma/src/main/java/mx/edu/utez/model/Activo.java:18-21 | a new table is empty, satisfies the store invariant and has its IDENTITY counter at 1 |
| Repository.Save | back/sirma/src/main/java/mx/edu/utez/services/ActivoService.java:69-97 | save keeps the columns and stores the entity under its own key. An existing key is replaced in place. Anything else is inserted under the counter's value, which is fresh on a valid table. The invariant is preserved |
| Repository.DeleteById | back/sirma/src/main/java/mx/edu/utez/services/ActivoService.java:120 | deleteById removes that key and nothing else, leaves the counter alone and preserves the invariant |
| Repository.FindAll | back/sirma/src/main/java/mx/edu/utez/services/ActivoService.java:32 | findAll lists exactly the table's rows: as many as there are keys, every row and only rows, no row twice on a valid table |
| Service.Response.Code | back/sirma/src/main/java/mx/edu/utez/services/ActivoService.java:31-123 | the "success" code is always one of 200, 201, 204, 404; 200 exactly for a listing or a single row, 201 exactly for a created row, 204 exactly for a deletion, 404 exactly for a not-found response |
| Service.GetAll | back/sirma/src/main/java/mx/edu/utez/services/ActivoService.java:28-35 | getAll answers 200 with exactly the table's rows, each once on a valid table |
| Service.GetById | back/sirma/src/main/java/mx/edu/utez/services/ActivoService.java:42-58 | 200 with the stored row iff the key is present, else 404 with the entity's fixed message; the returned row's id is the requested key on a valid table |
| Service.Create | back/sirma/src/main/java/mx/edu/utez/services/ActivoService.java:65-75 | 201 with mapX(dto) under the counter's value. Exactly one row is added, the old rows are unchanged, the key was unused and the invariant is preserved |
| Service.Update | back/sirma/src/main/java/mx/edu/utez/services/ActivoService.java:83-104 | absent key: 404 and the table unchanged. Present key: 200 with mapX(dto). On a valid table the row keeps the requested id, only that key changes, the key set and counter stay, and the invariant is preserved |
| Service.Delete | back/sirma/src/main/java/mx/edu/utez/services/ActivoService.java:111-127 | present key: 204 with the deletion message and only that key removed. Absent key: 404 with the not-found message and the table unchanged |
| Service.NotFoundIffAbsent | back/sirma/src/main/java/mx/edu/utez/services/ActivoService.java:42-127 | getById, update and delete answer 404 exactly when the key is absent; create always answers 201 |
| Service.CreateThenGetById | back/sirma/src/main/java/mx/edu/utez/services/ActivoService.java:65-75 | a created row is found again by getById under its new key, with the mapped DTO's columns |
| Service.UpdateThenGetById | back/sirma/src/main/java/mx/edu/utez/services/ActivoService.java:92-100 | after a successful update, getById returns the mapped DTO under the same key |
| Service.DeleteThenGetById | back/sirma/src/main/java/mx/edu/utez/services/ActivoService.java:111-127 | after delete, getById on that key answers 404 |
| Service.UpdateIgnoresOldRow | back/sirma/src/main/java/mx/edu/utez/services/ActivoService.java:94-95 | update is not a patch: the saved row and the response are the same whatever the old row contained |
| History.Run | back/sirma/src/main/java/mx/edu/utez/services/ActivoService.java:65-127 | any sequence of create, update and delete requests preserves the store invariant and never moves the counter back |
| History.FreshTable | back/sirma/src/main/java/mx/edu/utez/services/ActivoService.java:65-127 | on a new table the first create answers 201 with key 1, and after any run of writes the table is valid and the counter is one past the number of creates |
| History.RunCountsPosts | back/sirma/src/main/java/mx/edu/utez/services/ActivoService.java:65-127 | on a valid table only create moves the IDENTITY counter, by one each: after any run of writes it has grown by exactly the number of POST requests |
| History.ApplyAddsOnlyFreshKeys | back/sirma/src/main/java/mx/edu/utez/services/ActivoService.java:65-127 | one write request adds no key other than one at or above the counter |
| History.RunAddsOnlyFreshKeys | back/sirma/src/main/java/mx/edu/utez/model/Activo.java:18-21 | after any run of writes, every key was there before or was handed out by the counter since |
| History.DeletedKeyNeverReturns | back/sirma/src/main/java/mx/edu/utez/services/ActivoService.java:111-127 | once delete answers 204 for a key, getById on it answers 404 after any later run of writes |
| Scenario.RegisterReadDeleteRead | back/sirma/src/main/java/mx/edu/utez/services/ActivoService.java:42-127 | registering a TipoActivo and an Activo referring to it gives 201 twice with fresh keys; reading the asset gives 200 with exactly the registered row: its new key and all eight columns as sent; delete gives 204; reading again gives 404 |
| Activo.MapActivo | back/sirma/src/main/java/mx/edu/utez/services/ActivoService.java:134-163 | each of the eight columns is the DTO's value when non-null and null otherwise |
| Activo.ActivoServiceContract | back/sirma/src/main/java/mx/edu/utez/services/ActivoService.java:42-127 | "Activo no encontrado" for a missing key, "Activo eliminado correctamente" on delete, and mapActivo(dto) stored by create and update under the "activo" key |
| Activo.UpdateNullsOmittedColumns | back/sirma/src/main/java/mx/edu/utez/services/ActivoService.java:92-100 | a column the update DTO leaves null is null in the saved asset, even if the old row had a value |
| Mantenimiento.MapMantenimiento | back/sirma/src/main/java/mx/edu/utez/services/MantenimientoService.java:134-159 | each of the seven columns (activo … estatusFinal) is the DTO's value when non-null and null otherwise |
| Mantenimiento.MantenimientoServiceContract | back/sirma/src/main/java/mx/edu/utez/services/MantenimientoService.java:42-127 | "Mantenimiento no encontrado" for a missing key, "Mantenimiento eliminado correctamente" on delete, and mapMantenimiento(dto) stored by create and update, the latter with the existing id |
| Usuario.MapUsuario | back/sirma/src/main/java/mx/edu/utez/services/UsuarioService.java:134-165 | each of the nine columns is the DTO's value when non-null and null otherwise |
| Usuario.UsuarioServiceContract | back/sirma/src/main/java/mx/edu/utez/services/UsuarioService.java:42-127 | "Usuario no encontrado" for a missing key, "Usuario eliminado correctamente" on delete, and mapUsuario(dto) stored by create and update, the latter with the existing id |
| Usuario.UpdateNullsOmittedColumns | back/sirma/src/main/java/mx/edu/utez/services/UsuarioService.java:92-100 | update keeps the id, and every field the DTO omits is null in the entity update hands to save, whatever the old row held |
| Resguardo.MapResguardo | back/sirma/src/main/java/mx/edu/utez/services/ResguardoService.java:134-156 | each of the six columns is the DTO's value when non-null and null otherwise |
| Resguardo.ResguardoServiceContract | back/sirma/src/main/java/mx/edu/utez/services/ResguardoService.java:42-127 | "Resguardo no encontrado" for a missing key, "Resguardo eliminado correctamente" on delete, and mapResguardo(dto) stored by create and update, the latter with the existing id |
| Ubicacion.MapUbicacion | back/sirma/src/main/java/mx/edu/utez/services/UbicacionService.java:134-153 | campus, edificio, aula, laboratorio and descripcion are each the DTO's value when non-null and null otherwise |
| Ubicacion.UbicacionServiceContract | back/sirma/src/main/java/mx/edu/utez/services/UbicacionService.java:42-127 | "Ubicación no encontrada" for a missing key, "Ubicación eliminada correctamente" on delete, and mapUbicacion(dto) stored by create and update, the latter with the existing id |
| TipoActivo.MapTipoActivo | back/sirma/src/main/java/mx/edu/utez/services/TipoActivoService.java:134-147 | nombre, marca and modelo are each the DTO's value when non-null and null otherwise |
| TipoActivo.TipoActivoServiceContract | back/sirma/src/main/java/mx/edu/utez/services/TipoActivoService.java:42-127 | "Tipo de activo no encontrado" for a missing key, "Tipo de activo eliminado correctamente" on delete, and mapTipoActivo(dto) stored by create and update under the "tipoActivo" key |
| Reporte.MapReporte | back/sirma/src/main/java/mx/edu/utez/services/ReporteService.java:134-153 | activo, prioridad, usuario, fechaReporte and video are each the DTO's value when non-null and null otherwise |
| Reporte.ReporteServiceContract | back/sirma/src/main/java/mx/edu/utez/services/ReporteService.java:42-127 | "Reporte no encontrado" for a missing key, "Reporte eliminado correctamente" on delete, and mapReporte(dto) stored by create and update, the latter with the existing id |
| Prioridad.MapPrioridad | back/sirma/src/main/java/mx/edu/utez/services/PrioridadService.java:134-144 | nivel and descripcion are each the DTO's value when non-null and null otherwise |
| Prioridad.PrioridadServiceContract | back/sirma/src/main/java/mx/edu/utez/services/PrioridadService.java:42-127 | "Prioridad no encontrada" for a missing key, "Prioridad eliminada correctamente" on delete, and mapPrioridad(dto) stored by create and update, the latter with the existing id |
| Rol.MapRol | back/sirma/src/main/java/mx/edu/utez/services/RolService.java:134-141 | nombreRol is the DTO's value when non-null and null otherwise; nothing else is set |
| Rol.RolServiceContract | back/sirma/src/main/java/mx/edu/utez/services/RolService.java:42-127 | "Rol no encontrado" for a missing key, "Rol eliminado correctamente" on delete, and mapRol(dto) stored by create and update, the latter with the existing id |

## Left out

- Controllers: the HTTP and Spring plumbing (`ResponseEntity`, `@CrossOrigin`, routing) is not modelled. Only the status an endpoint answers with is modelled, as `Controller.StatusOf`.
- Repositories: the JPA library is replaced by one map-backed table per entity. `findAll` returns rows in no particular order. The database's own ordering is not modelled.
- Repository.Save: an entity whose id names no existing row is inserted under a fresh key. The services never reach that case, because update saves only after `findById` found the row.
- Identifier types: every key is a `nat`. `Mantenimiento.idMantenimiento` is a `Long` (model/Mantenimiento.java:20), but its repository is keyed by `Integer` (repository/MantenimientoRepository.java:8). That mismatch is not reproduced. The 32-bit bound of the Integer key is not modelled.
- Negative path ids: Java accepts any `Integer` in the URL. A negative one always gets 404, because the table only hands out positive keys. Keys in the model are natural numbers, so such requests are not expressible.
- A null path id (which makes `findById` throw) is not modelled.
- Column constraints (`nullable`, `length`, `unique`) and the database exceptions they raise are not modelled. The services do no validation, so the model stores whatever the mapper produces, nulls included.
- Lazy relations: a relation column and the DTO's nested entity object are both reduced to the key of the referenced row. Loading the referenced row is not modelled.
- `LocalDate`, `LocalDateTime` and `BigDecimal` are plain data. No date or decimal arithmetic happens in the services.
- IDENTITY counter: the counter is assumed persistent and never reset. Some databases re-seed it from the largest key on restart (MySQL InnoDB before 8.0 does). `History.DeletedKeyNeverReturns` and create's promise of a never-used key rest on that assumption.
- Foreign keys: every relation column is a database foreign key (Activo.java:23-29, Usuario.java:20-22, Mantenimiento.java:22-28, Reporte.java:22-32, Resguardo.java:22-28). The model keeps each table on its own and checks none of them. In the program, a relation naming a missing row makes `save` throw, and so does deleting a row that another table still references; the client then gets a framework 500. So Create's 201, Update's 200, Delete's 204 and the "create always answers 201" of `Service.NotFoundIffAbsent` all assume that no foreign key is violated. In `Scenario.RegisterReadDeleteRead`, `ubicacion` is assumed to name an existing Ubicacion row.
- Concurrency: two requests racing on the same row (last write wins) are not modelled. Each operation is atomic.
- Rol: `Rol.java` and `CreateRolDTO.java` are not part of this model. The role entity is modelled with only the one column its mapper sets, `nombreRol`.
- The Android login screen is pure UI and is not modelled.
