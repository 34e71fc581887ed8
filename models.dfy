/** The records the controller reads and writes, and the outcome of each action.
    A C# `null` becomes `None`, a thrown-and-caught exception becomes `Err`. */
module Models {

  type Bytes = seq<bv8>

  datatype Option<+T> = None | Some(value: T)

  /** One kind per exception a handler throws (or suffers) before it answers
      with a failure. */
  datatype Erro =
    | NomeDeUsuarioJaExiste   // "Nome de usuário já existe"
    | UsuarioNaoEncontrado    // "Usuário não encontrado."
    | SenhaIncorreta          // "Senha incorreta."
    | ReferenciaNula          // the record looked up by id is null and is dereferenced anyway
    | DanoZero                // "O Dano da arma não pode ser 0"
    | PersonagemInexistente   // "Não existe personagem com a Id informado."
    | PersonagemJaArmado      // the character already has a weapon

  datatype Result<+T> = Ok(value: T) | Err(error: Erro)

  /** A row of TB_USUARIOS. `dataAcesso` is the last access time, `None` while
      the user has never authenticated; times are plain integers. */
  datatype Usuario = Usuario(
    id: int,
    username: string,
    passwordString: string,
    passwordHash: Bytes,
    passwordSalt: Bytes,
    foto: Bytes,
    latitude: real,
    longitude: real,
    dataAcesso: Option<int>,
    email: string)

  /** A row of TB_PERSONAGENS; the weapon rule only looks at its id. */
  datatype Personagem = Personagem(id: int, nome: string)

  /** A row of TB_ARMAS: a weapon belongs to the character `personagemId`. */
  datatype Arma = Arma(id: int, nome: string, dano: int, personagemId: int)
}
