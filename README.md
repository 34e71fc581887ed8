# User controller of the RPG API, modelled in Dafny

This project models `UsuariosController`, the ASP.NET controller of an RPG game
backend. It registers users, authenticates them, changes their passwords and
updates three profile fields (location, e-mail, photo). It also holds one
equipment action that attaches a weapon (`Arma`) to a character (`Personagem`).

The controller works on three database tables: TB_USUARIOS, TB_PERSONAGENS and
TB_ARMAS. Here they are fields of the class `Controllers.UsuariosController`,
each a sequence of records in insertion order. The ids that inserts receive
come from the counters `nextUsuarioId` and `nextArmaId`, standing for the
tables' identity columns.

Every action either fails or succeeds:

- On failure it returns `Err(kind)` and changes no table. In the source every
  failure throws before anything is written, and the `catch` turns it into a
  `BadRequest`.
- On success it returns `Ok(value)` and changes exactly the rows and fields it
  targets.

Files:

- `text.dfy` (module `Text`): ASCII lower-casing, standing for `ToLower()`.
- `models.dfy` (module `Models`): the records `Usuario`, `Personagem` and
  `Arma`, plus `Option`, `Result` and the error kinds `Erro`.
- `queries.dfy` (module `Queries`): the `AnyAsync` and `FirstOrDefaultAsync`
  queries as a single first-match search `FirstWithKey`. A query is given by a
  key function: lower-cased user name, user id, character id or a weapon's
  owner. The file also holds lemmas on key uniqueness and on what a query
  answers after a row is appended or rewritten.
- `usuarios_controller.dfy` (module `Controllers`): the controller class.
  Reads are functions and state-changing actions are methods. Each method's
  `ensures` gives the whole new state in terms of the old one, including the
  id counter, which an insert advances by one. It also says which invariants
  the method preserves: case-insensitive uniqueness of user names, and at
  most one weapon per character. The constructor takes the tables and
  counters as they stand, since the controller is built per request over a
  database that earlier requests have filled.
- `scenarios.dfy` (module `Scenarios`): client methods that reach conclusions
  from the contracts alone:
  - "alice" then "Alice" is a duplicate;
  - a rejected password leaves the access time alone;
  - an e-mail update is seen by the lookup by id;
  - a second weapon for a character is refused;
  - a controller built over a table that already holds "Bob" refuses "BOB".

Some parts are supplied by the caller instead of modelled:

- Password hashing is a foreign call whose code is not shown
  (`Criptografia`).
  - `CriarPasswordHash` draws a random salt, so it is not a function. Its
    `(hash, salt)` result is passed to `RegistrarUsuario` and
    `AlterarSenhaUsuario` as parameters.
  - `VerificarPasswordHash` is the function parameter `verificar` of
    `AutenticarUsuario`.
  - Nothing is assumed about how the two relate.
- The current time (`DateTime.Now`) is the parameter `agora`.

Three points where the model follows the code as written:

- A profile update for an id that does not exist is not a "user not found"
  check. The source dereferences the `null` it got back, and the resulting
  exception becomes a failure. The model gives the error kind
  `ReferenciaNula` and changes nothing.
- A profile update reports one affected row even when the new value equals
  the old one. The source marks the properties as modified explicitly, so
  the row is always written.
- Authentication returns the whole updated record, hash and salt included.

## Model

| member | source | states |
|---|---|---|
| Text.Lower | Controllers/UsuariosController.cs:26 | the result is never an upper-case ASCII letter; upper-case letters map to their lower-case letter and every other character is unchanged |
| Text.ToLower | Controllers/UsuariosController.cs:26 | lower-casing keeps the length and lowers each character in place |
| Queries.FirstWithKey | Controllers/UsuariosController.cs:61-62 | `FirstOrDefault`: the result is the position of a row with the key, no earlier row has it, and `None` exactly when no row has it |
| Queries.FirstIsOnlyMatch | Controllers/UsuariosController.cs:61-62 | when keys are unique, the first match for a row's key is that row, so the login lookup of authentication finds the only user with that name |
| Queries.AppendFreshKeepsUnique | Controllers/UsuariosController.cs:38-46 | appending a row whose key no stored row has keeps keys pairwise distinct |
| Queries.WriteSameKeyKeepsUnique | Controllers/UsuariosController.cs:100-103 | rewriting a row without changing its key keeps keys pairwise distinct |
| Queries.FirstAfterSameKeyWrite | Controllers/UsuariosController.cs:163-171 | after a row is rewritten with the same key, every query returns the same position as before |
| Queries.FirstAfterAppend | Controllers/UsuariosController.cs:41-46 | after an append, a query returns its old answer if it had one, otherwise the new row exactly when the new row has the key |
| Queries.LookupsAfterRewrite | Controllers/UsuariosController.cs:163-171 | rewriting a user with the same id and name leaves the lookups by id and by login returning the same rows |
| Controllers.UsuariosController.constructor | Controllers/UsuariosController.cs:19-22 | builds the controller over the given user, character and weapon tables and id counters, requiring only that ids are positive, distinct and below their counter; name uniqueness and one weapon per character hold afterwards when they held of the given tables |
| Controllers.UsuariosController.UsuarioExistente | Controllers/UsuariosController.cs:24-31 | true exactly when some stored user name equals the given one after both are lower-cased |
| Controllers.UsuariosController.RegistrarUsuario | Controllers/UsuariosController.cs:33-54 | an existing name (ignoring case) gives `NomeDeUsuarioJaExiste` and no change; otherwise exactly one record is appended with a fresh id (returned), the hasher's hash and salt, and an empty plaintext password, and the counter advances by one; the new user is then found by name and by id; name uniqueness is preserved |
| Controllers.UsuariosController.AutenticarUsuario | Controllers/UsuariosController.cs:56-85 | an unknown name gives `UsuarioNaoEncontrado`, a rejected password gives `SenhaIncorreta`, both with no change; on success only the first matching user's access time changes, to `agora`, and that updated record is returned; when names were unique, it is the only user with that name |
| Controllers.UsuariosController.AlterarSenhaUsuario | Controllers/UsuariosController.cs:87-111 | an unknown name gives `UsuarioNaoEncontrado` and no change; otherwise hash and salt of the first matching user are replaced together by the hasher's pair, all other fields and users unchanged, and 1 is returned |
| Controllers.UsuariosController.GetUsuarios | Controllers/UsuariosController.cs:113-125 | returns every user record, in table order, changing nothing |
| Controllers.UsuariosController.GetUsuarioPorId | Controllers/UsuariosController.cs:126-140 | returns the first record with the id, and `None` exactly when no record has it |
| Controllers.UsuariosController.GetUsuarioPorLogin | Controllers/UsuariosController.cs:142-156 | returns the first record whose lowered name equals the lowered login, and `None` exactly when there is none |
| Controllers.UsuariosController.AtualizarLocalizacao | Controllers/UsuariosController.cs:158-178 | a missing id gives `ReferenciaNula` and no change; otherwise only latitude and longitude of that user change, 1 is returned, and lookups find the same rows |
| Controllers.UsuariosController.AtualizarEmail | Controllers/UsuariosController.cs:180-198 | a missing id gives `ReferenciaNula` and no change; otherwise only that user's e-mail changes, 1 is returned, and lookups find the same rows |
| Controllers.UsuariosController.AtualizarFoto | Controllers/UsuariosController.cs:199-217 | a missing id gives `ReferenciaNula` and no change; otherwise only that user's photo changes, 1 is returned, and lookups find the same rows |
| Controllers.UsuariosController.Rewrite | Controllers/UsuariosController.cs:167-170 | writing back a row with its id and name unchanged keeps ids unique and names unique, and changes that one row only |
| Controllers.UsuariosController.Add | Controllers/UsuariosController.cs:220-244 | refused in source order: damage 0, no character with the id, or a weapon already held by that character, each with the weapon table unchanged; otherwise one weapon is appended with a fresh id, which is returned, and the counter advances by one; at most one weapon per character is preserved |

## Left out

- Persistence mechanics: the EF Core `DataContext`, change tracking,
  `Attach`/`IsModified` and `SaveChangesAsync`. Only their effect on the
  in-memory tables is modelled. Database-level failures inside
  `SaveChangesAsync` are not modelled.
- The affected-row count is the constant 1 on success, not a value the store
  reports.
- `async`/`await`, and the race between `UsuarioExistente` and the insert in
  `RegistrarUsuario`. The model is sequential, so two registrations of the
  same name cannot interleave.
- The internals of `Criptografia`: it is not part of this model. No
  hash/verify round trip is claimed.
- `DateTime.Now` is the parameter `agora`, an integer.
- HTTP mapping (`Ok`, `BadRequest`, routes) and the exception message text.
  Each failure is one `Erro` kind.
- Culture-specific `ToLower()`: only ASCII letters are folded.
- `null` strings in requests, which make `ToLower()` throw: strings are
  never null here.
- An id supplied by the client on registration or weapon insertion: the
  model ignores a client-supplied id and uses the counter; in the source a
  non-zero id reaches the store, which rejects the insert or keeps that id.
- Floating point: latitude and longitude are `real` values that are only
  copied.
- The model classes `Usuario`, `Personagem` and `Arma` are not part of this
  model. Their fields are the ones the controller touches.
