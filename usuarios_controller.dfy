/** The user controller over an in-memory copy of its tables. Each action checks
    its preconditions and either fails, leaving every table as it was (every
    failure path throws before anything is written), or changes exactly the
    rows and fields it targets. */
module Controllers {
  import opened Text
  import opened Models
  import opened Queries

  class UsuariosController {
    /** TB_USUARIOS, TB_PERSONAGENS and TB_ARMAS, in insertion order. */
    var usuarios: seq<Usuario>
    var personagens: seq<Personagem>
    var armas: seq<Arma>
    /** The ids the next insert into TB_USUARIOS and TB_ARMAS receives. */
    var nextUsuarioId: int
    var nextArmaId: int

    /** The identity facts the model keeps: ids are positive, below the next
        one the counter hands out, and never shared. They hold because every
        insert in the model takes its id from the counter (see `RegistrarUsuario`
        and `Add`), not because of anything the store enforces. */
    ghost predicate Valid()
      reads this
    {
      && 0 < nextUsuarioId && 0 < nextArmaId
      && (forall i :: 0 <= i < |usuarios| ==> 0 < usuarios[i].id < nextUsuarioId)
      && KeysUnique(usuarios, UsuarioId)
      && (forall i :: 0 <= i < |armas| ==> 0 < armas[i].id < nextArmaId)
      && KeysUnique(armas, ArmaId)
    }

    /** No two users have the same name ignoring case. */
    ghost predicate LoginsUnique()
      reads this
    {
      KeysUnique(usuarios, LoginKey)
    }

    /** No character has more than one weapon. */
    ghost predicate UmaArmaPorPersonagem()
      reads this
    {
      KeysUnique(armas, DonoDaArma)
    }

    /** The controller is built per request over tables that already hold
        whatever earlier requests left; only the identity facts are required. */
    constructor (usuarios: seq<Usuario>, personagens: seq<Personagem>, armas: seq<Arma>,
                 nextUsuarioId: int, nextArmaId: int)
      requires 0 < nextUsuarioId && 0 < nextArmaId
      requires forall i :: 0 <= i < |usuarios| ==> 0 < usuarios[i].id < nextUsuarioId
      requires KeysUnique(usuarios, UsuarioId)
      requires forall i :: 0 <= i < |armas| ==> 0 < armas[i].id < nextArmaId
      requires KeysUnique(armas, ArmaId)
      ensures Valid()
      ensures this.usuarios == usuarios && this.personagens == personagens && this.armas == armas
      ensures this.nextUsuarioId == nextUsuarioId && this.nextArmaId == nextArmaId
      ensures KeysUnique(usuarios, LoginKey) ==> LoginsUnique()
      ensures KeysUnique(armas, DonoDaArma) ==> UmaArmaPorPersonagem()
    {
      this.usuarios, this.personagens, this.armas := usuarios, personagens, armas;
      this.nextUsuarioId, this.nextArmaId := nextUsuarioId, nextArmaId;
    }

    /** Whether some stored user name equals `username` after both are
        lower-cased. */
    function UsuarioExistente(username: string): (b: bool)
      reads this
      ensures b <==> exists i :: 0 <= i < |usuarios| && ToLower(usuarios[i].username) == ToLower(username)
    {
      var k := IndexByLogin(usuarios, username);
      if k.Some? then assert LoginKey(usuarios[k.value]) == ToLower(username); true else false
    }

    /** Registration. A name already taken ignoring case is refused; otherwise
        one record is appended holding the hasher's `hash` and `salt` (the pair
        `Criptografia.CriarPasswordHash` produced for `user.passwordString`), an
        empty plaintext password and a fresh id, which is returned. */
    method RegistrarUsuario(user: Usuario, hash: Bytes, salt: Bytes) returns (r: Result<int>)
      requires Valid()
      modifies this`usuarios, this`nextUsuarioId
      ensures Valid()
      ensures old(UsuarioExistente(user.username)) ==>
                r == Err(NomeDeUsuarioJaExiste) && usuarios == old(usuarios) && nextUsuarioId == old(nextUsuarioId)
      ensures !old(UsuarioExistente(user.username)) ==>
                && r == Ok(old(nextUsuarioId))
                && nextUsuarioId == old(nextUsuarioId) + 1
                && usuarios == old(usuarios) + [user.(id := old(nextUsuarioId), passwordString := "",
                                                      passwordHash := hash, passwordSalt := salt)]
      ensures r.Ok? ==> forall i :: 0 <= i < |old(usuarios)| ==> old(usuarios)[i].id != r.value
      ensures r.Ok? ==>
                && IndexByLogin(usuarios, user.username) == Some(|old(usuarios)|)
                && IndexById(usuarios, r.value) == Some(|old(usuarios)|)
      ensures old(LoginsUnique()) ==> LoginsUnique()
    {
      var existe := UsuarioExistente(user.username);
      if existe {
        return Err(NomeDeUsuarioJaExiste);
      }
      var novo := user.(id := nextUsuarioId, passwordString := "", passwordHash := hash, passwordSalt := salt);
      assert IndexByLogin(usuarios, user.username).None?;
      if LoginsUnique() {
        AppendFreshKeepsUnique(usuarios, LoginKey, novo);
      }
      AppendFreshKeepsUnique(usuarios, UsuarioId, novo);
      FirstAfterAppend(usuarios, LoginKey, novo, ToLower(user.username));
      FirstAfterAppend(usuarios, UsuarioId, novo, novo.id);
      usuarios := usuarios + [novo];
      r := Ok(nextUsuarioId);
      nextUsuarioId := nextUsuarioId + 1;
    }

    /** Authentication. Fails when no user has the name ignoring case, or when
        `verificar` (standing for `Criptografia.VerificarPasswordHash`) rejects
        the password against the stored hash and salt. Otherwise the first
        matching user's access time becomes `agora` and that record, updated,
        is returned; nothing else changes. */
    method AutenticarUsuario(credenciais: Usuario, verificar: (string, Bytes, Bytes) -> bool, agora: int)
      returns (r: Result<Usuario>)
      requires Valid()
      modifies this`usuarios
      ensures Valid()
      ensures var k := IndexByLogin(old(usuarios), credenciais.username);
              k.None? ==> r == Err(UsuarioNaoEncontrado) && usuarios == old(usuarios)
      ensures var k := IndexByLogin(old(usuarios), credenciais.username);
              k.Some? ==>
                var u := old(usuarios)[k.value];
                if !verificar(credenciais.passwordString, u.passwordHash, u.passwordSalt) then
                  r == Err(SenhaIncorreta) && usuarios == old(usuarios)
                else
                  r == Ok(u.(dataAcesso := Some(agora))) && usuarios == old(usuarios)[k.value := r.value]
      ensures r.Ok? && old(LoginsUnique()) ==>
                forall i :: 0 <= i < |usuarios| && ToLower(usuarios[i].username) == ToLower(credenciais.username) ==>
                  usuarios[i] == r.value
      ensures old(LoginsUnique()) ==> LoginsUnique()
      ensures forall id :: IndexById(usuarios, id) == IndexById(old(usuarios), id)
      ensures forall login :: IndexByLogin(usuarios, login) == IndexByLogin(old(usuarios), login)
    {
      var k := IndexByLogin(usuarios, credenciais.username);
      if k.None? {
        return Err(UsuarioNaoEncontrado);
      }
      var u := usuarios[k.value];
      if !verificar(credenciais.passwordString, u.passwordHash, u.passwordSalt) {
        return Err(SenhaIncorreta);
      }
      var atualizado := u.(dataAcesso := Some(agora));
      ghost var unicos := LoginsUnique();
      Rewrite(k.value, atualizado);
      r := Ok(atualizado);
      if unicos {
        forall i | 0 <= i < |usuarios| && ToLower(usuarios[i].username) == ToLower(credenciais.username)
          ensures usuarios[i] == r.value
        {
          FirstIsOnlyMatch(usuarios, LoginKey, i);
        }
      }
    }

    /** Password change. Fails for an unknown name; otherwise the first
        matching user's hash and salt are both replaced by the hasher's fresh
        pair, and one affected row is reported. */
    method AlterarSenhaUsuario(credenciais: Usuario, hash: Bytes, salt: Bytes) returns (r: Result<nat>)
      requires Valid()
      modifies this`usuarios
      ensures Valid()
      ensures var k := IndexByLogin(old(usuarios), credenciais.username);
              k.None? ==> r == Err(UsuarioNaoEncontrado) && usuarios == old(usuarios)
      ensures var k := IndexByLogin(old(usuarios), credenciais.username);
              k.Some? ==>
                && r == Ok(1)
                && usuarios == old(usuarios)[k.value := old(usuarios)[k.value].(passwordHash := hash, passwordSalt := salt)]
      ensures old(LoginsUnique()) ==> LoginsUnique()
      ensures forall id :: IndexById(usuarios, id) == IndexById(old(usuarios), id)
      ensures forall login :: IndexByLogin(usuarios, login) == IndexByLogin(old(usuarios), login)
    {
      var k := IndexByLogin(usuarios, credenciais.username);
      if k.None? {
        return Err(UsuarioNaoEncontrado);
      }
      var u := usuarios[k.value];
      Rewrite(k.value, u.(passwordHash := hash, passwordSalt := salt));
      r := Ok(1);
    }

    /** The whole user table, in insertion order. */
    function GetUsuarios(): (lista: seq<Usuario>)
      reads this
      ensures |lista| == |usuarios|
      ensures forall i :: 0 <= i < |lista| ==> lista[i] == usuarios[i]
    {
      usuarios
    }

    /** The first user with id `usuarioId`, or `None`. */
    function GetUsuarioPorId(usuarioId: int): (r: Option<Usuario>)
      reads this
      ensures r.None? <==> forall i :: 0 <= i < |usuarios| ==> usuarios[i].id != usuarioId
      ensures r.Some? ==> exists k :: 0 <= k < |usuarios| && usuarios[k] == r.value && r.value.id == usuarioId
                                      && forall j :: 0 <= j < k ==> usuarios[j].id != usuarioId
    {
      var k := IndexById(usuarios, usuarioId);
      if k.None? then None
      else assert UsuarioId(usuarios[k.value]) == usuarioId; Some(usuarios[k.value])
    }

    /** The first user whose name equals `login` ignoring case, or `None`. */
    function GetUsuarioPorLogin(login: string): (r: Option<Usuario>)
      reads this
      ensures r.None? <==> forall i :: 0 <= i < |usuarios| ==> ToLower(usuarios[i].username) != ToLower(login)
      ensures r.Some? ==> exists k :: 0 <= k < |usuarios| && usuarios[k] == r.value
                                      && ToLower(r.value.username) == ToLower(login)
                                      && forall j :: 0 <= j < k ==> ToLower(usuarios[j].username) != ToLower(login)
    {
      var k := IndexByLogin(usuarios, login);
      if k.None? then None
      else assert LoginKey(usuarios[k.value]) == ToLower(login); Some(usuarios[k.value])
    }

    /** Location update: only latitude and longitude of the user with id
        `u.id` change. A missing id is dereferenced as null and fails. */
    method AtualizarLocalizacao(u: Usuario) returns (r: Result<nat>)
      requires Valid()
      modifies this`usuarios
      ensures Valid()
      ensures var k := IndexById(old(usuarios), u.id);
              k.None? ==> r == Err(ReferenciaNula) && usuarios == old(usuarios)
      ensures var k := IndexById(old(usuarios), u.id);
              k.Some? ==>
                && r == Ok(1)
                && usuarios == old(usuarios)[k.value := old(usuarios)[k.value].(latitude := u.latitude, longitude := u.longitude)]
      ensures old(LoginsUnique()) ==> LoginsUnique()
      ensures forall id :: IndexById(usuarios, id) == IndexById(old(usuarios), id)
      ensures forall login :: IndexByLogin(usuarios, login) == IndexByLogin(old(usuarios), login)
    {
      var k := IndexById(usuarios, u.id);
      if k.None? {
        return Err(ReferenciaNula);
      }
      var usuario := usuarios[k.value];
      Rewrite(k.value, usuario.(latitude := u.latitude, longitude := u.longitude));
      r := Ok(1);
    }

    /** E-mail update: only the e-mail of the user with id `u.id` changes. */
    method AtualizarEmail(u: Usuario) returns (r: Result<nat>)
      requires Valid()
      modifies this`usuarios
      ensures Valid()
      ensures var k := IndexById(old(usuarios), u.id);
              k.None? ==> r == Err(ReferenciaNula) && usuarios == old(usuarios)
      ensures var k := IndexById(old(usuarios), u.id);
              k.Some? ==>
                && r == Ok(1)
                && usuarios == old(usuarios)[k.value := old(usuarios)[k.value].(email := u.email)]
      ensures old(LoginsUnique()) ==> LoginsUnique()
      ensures forall id :: IndexById(usuarios, id) == IndexById(old(usuarios), id)
      ensures forall login :: IndexByLogin(usuarios, login) == IndexByLogin(old(usuarios), login)
    {
      var k := IndexById(usuarios, u.id);
      if k.None? {
        return Err(ReferenciaNula);
      }
      var usuario := usuarios[k.value];
      Rewrite(k.value, usuario.(email := u.email));
      r := Ok(1);
    }

    /** Photo update: only the photo of the user with id `u.id` changes. */
    method AtualizarFoto(u: Usuario) returns (r: Result<nat>)
      requires Valid()
      modifies this`usuarios
      ensures Valid()
      ensures var k := IndexById(old(usuarios), u.id);
              k.None? ==> r == Err(ReferenciaNula) && usuarios == old(usuarios)
      ensures var k := IndexById(old(usuarios), u.id);
              k.Some? ==>
                && r == Ok(1)
                && usuarios == old(usuarios)[k.value := old(usuarios)[k.value].(foto := u.foto)]
      ensures old(LoginsUnique()) ==> LoginsUnique()
      ensures forall id :: IndexById(usuarios, id) == IndexById(old(usuarios), id)
      ensures forall login :: IndexByLogin(usuarios, login) == IndexByLogin(old(usuarios), login)
    {
      var k := IndexById(usuarios, u.id);
      if k.None? {
        return Err(ReferenciaNula);
      }
      var usuario := usuarios[k.value];
      Rewrite(k.value, usuario.(foto := u.foto));
      r := Ok(1);
    }

    /** Writes back row `k` with the same id and user name, as every update
        above does. */
    method Rewrite(k: nat, v: Usuario)
      requires Valid()
      requires k < |usuarios| && v.id == usuarios[k].id && v.username == usuarios[k].username
      modifies this`usuarios
      ensures Valid()
      ensures usuarios == old(usuarios)[k := v]
      ensures old(LoginsUnique()) ==> LoginsUnique()
      ensures forall id :: IndexById(usuarios, id) == IndexById(old(usuarios), id)
      ensures forall login :: IndexByLogin(usuarios, login) == IndexByLogin(old(usuarios), login)
    {
      assert UsuarioId(v) == UsuarioId(usuarios[k]) && LoginKey(v) == LoginKey(usuarios[k]);
      WriteSameKeyKeepsUnique(usuarios, UsuarioId, k, v);
      if LoginsUnique() {
        WriteSameKeyKeepsUnique(usuarios, LoginKey, k, v);
      }
      LookupsAfterRewrite(usuarios, k, v);
      usuarios := usuarios[k := v];
    }

    /** Weapon attachment. Refused, in this order, when the damage is 0, when
        no character has id `novaArma.personagemId`, or when a weapon already
        belongs to that character; otherwise the weapon is appended with a
        fresh id, which is returned. */
    method Add(novaArma: Arma) returns (r: Result<int>)
      requires Valid()
      modifies this`armas, this`nextArmaId
      ensures Valid()
      ensures novaArma.dano == 0 ==>
                r == Err(DanoZero) && armas == old(armas) && nextArmaId == old(nextArmaId)
      ensures novaArma.dano != 0 && FirstWithKey(personagens, PersonagemId, novaArma.personagemId).None? ==>
                r == Err(PersonagemInexistente) && armas == old(armas) && nextArmaId == old(nextArmaId)
      ensures novaArma.dano != 0 && FirstWithKey(personagens, PersonagemId, novaArma.personagemId).Some?
              && FirstWithKey(old(armas), DonoDaArma, novaArma.personagemId).Some? ==>
                r == Err(PersonagemJaArmado) && armas == old(armas) && nextArmaId == old(nextArmaId)
      ensures novaArma.dano != 0 && FirstWithKey(personagens, PersonagemId, novaArma.personagemId).Some?
              && FirstWithKey(old(armas), DonoDaArma, novaArma.personagemId).None? ==>
                && r == Ok(old(nextArmaId))
                && nextArmaId == old(nextArmaId) + 1
                && armas == old(armas) + [novaArma.(id := old(nextArmaId))]
      ensures old(UmaArmaPorPersonagem()) ==> UmaArmaPorPersonagem()
    {
      if novaArma.dano == 0 {
        return Err(DanoZero);
      }
      var p := FirstWithKey(personagens, PersonagemId, novaArma.personagemId);
      if p.None? {
        return Err(PersonagemInexistente);
      }
      var buscaArma := FirstWithKey(armas, DonoDaArma, novaArma.personagemId);
      if buscaArma.Some? {
        return Err(PersonagemJaArmado);
      }
      var nova := novaArma.(id := nextArmaId);
      if UmaArmaPorPersonagem() {
        AppendFreshKeepsUnique(armas, DonoDaArma, nova);
      }
      AppendFreshKeepsUnique(armas, ArmaId, nova);
      armas := armas + [nova];
      r := Ok(nextArmaId);
      nextArmaId := nextArmaId + 1;
    }
  }
}
