/** Clients that use only the controller's contracts: what a caller can
    conclude from a sequence of actions. */
module Scenarios {
  import opened Text
  import opened Models
  import opened Queries
  import opened Controllers

  function Perfil(username: string, password: string): Usuario {
    Usuario(0, username, password, [], [], [], 0.0, 0.0, None, "")
  }

  /** "alice" registers and gets the first id; "Alice" is then refused as the
      same name, and the table still holds one user. */
  method RegistroDuplicado(hash: Bytes, salt: Bytes, hash2: Bytes, salt2: Bytes)
  {
    var c := new UsuariosController([], [], [], 1, 1);
    var r := c.RegistrarUsuario(Perfil("alice", "secret1"), hash, salt);
    assert r == Ok(1);
    assert c.usuarios[0].passwordString == "" && c.usuarios[0].passwordHash == hash;
    assert ToLower("Alice") == ToLower("alice");
    assert c.UsuarioExistente("Alice");
    var r2 := c.RegistrarUsuario(Perfil("Alice", "other"), hash2, salt2);
    assert r2 == Err(NomeDeUsuarioJaExiste);
    assert |c.usuarios| == 1 && c.LoginsUnique();
  }

  /** A password the hasher rejects leaves the access time as it was; one it
      accepts sets it to the supplied time. */
  method Autenticacao(verificar: (string, Bytes, Bytes) -> bool, hash: Bytes, salt: Bytes, agora: int)
    requires !verificar("wrong", hash, salt) && verificar("secret1", hash, salt)
  {
    var c := new UsuariosController([], [], [], 1, 1);
    var r := c.RegistrarUsuario(Perfil("alice", "secret1"), hash, salt);
    assert IndexByLogin(c.usuarios, "alice") == Some(0);
    var a := c.AutenticarUsuario(Perfil("alice", "wrong"), verificar, agora);
    assert a == Err(SenhaIncorreta) && c.usuarios[0].dataAcesso == None;
    a := c.AutenticarUsuario(Perfil("alice", "secret1"), verificar, agora);
    assert a.Ok? && a.value.dataAcesso == Some(agora) && c.usuarios[0] == a.value;
  }

  /** An e-mail update is visible to the lookup by id and leaves every other
      field of the record as it was. */
  method AtualizacaoDeEmail(hash: Bytes, salt: Bytes, novo: string)
  {
    var c := new UsuariosController([], [], [], 1, 1);
    var r := c.RegistrarUsuario(Perfil("alice", "secret1"), hash, salt);
    var antes := c.usuarios[0];
    var e := c.AtualizarEmail(Perfil("", "").(id := 1, email := novo));
    assert e == Ok(1);
    var depois := c.GetUsuarioPorId(1);
    assert depois == Some(antes.(email := novo));
    var nulo := c.AtualizarFoto(Perfil("", "").(id := 7));
    assert nulo == Err(ReferenciaNula) && c.usuarios == [antes.(email := novo)];
  }

  /** A character gets one weapon; a second one for it, and a weapon with no
      damage, are refused. */
  method UmaArmaSo()
  {
    var c := new UsuariosController([], [Personagem(3, "Gandalf")], [], 1, 1);
    var r := c.Add(Arma(0, "Cajado", 0, 3));
    assert r == Err(DanoZero);
    r := c.Add(Arma(0, "Cajado", 5, 4));
    assert r == Err(PersonagemInexistente);
    r := c.Add(Arma(0, "Cajado", 5, 3));
    assert r == Ok(1);
    r := c.Add(Arma(0, "Espada", 8, 3));
    assert r == Err(PersonagemJaArmado);
    assert c.armas == [Arma(1, "Cajado", 5, 3)] && c.UmaArmaPorPersonagem();
  }

  /** A controller built over a table that already holds "Bob" refuses "BOB"
      and gives the next new user the id its counter holds. */
  method TabelaExistente(bob: Usuario, hash: Bytes, salt: Bytes)
    requires bob.id == 4 && bob.username == "Bob"
  {
    var c := new UsuariosController([bob], [], [], 9, 1);
    assert ToLower("BOB") == ToLower("Bob");
    var r := c.RegistrarUsuario(Perfil("BOB", "x"), hash, salt);
    assert r == Err(NomeDeUsuarioJaExiste);
    r := c.RegistrarUsuario(Perfil("carol", "y"), hash, salt);
    assert r == Ok(9) && |c.usuarios| == 2 && c.nextUsuarioId == 10;
  }
}
