/** The table queries the controller runs (`AnyAsync`, `FirstOrDefaultAsync`),
    as searches over a table held as a sequence in insertion order. Every query
    in the controller compares one key of a row with one value, so a query is
    given by a key function and the value sought. */
module Queries {
  import opened Text
  import opened Models

  /** The key each query of the controller compares. */
  function LoginKey(u: Usuario): string { ToLower(u.username) }
  function UsuarioId(u: Usuario): int { u.id }
  function PersonagemId(p: Personagem): int { p.id }
  function ArmaId(a: Arma): int { a.id }
  function DonoDaArma(a: Arma): int { a.personagemId }

  /** `FirstOrDefault`: the position of the first row whose key is `x`, or
      `None` when no row has it. */
  function FirstWithKey<T, K(==)>(s: seq<T>, key: T -> K, x: K): (k: Option<nat>)
    ensures k.Some? ==> k.value < |s| && key(s[k.value]) == x
    ensures k.Some? ==> forall j :: 0 <= j < k.value ==> key(s[j]) != x
    ensures k.None? <==> forall j :: 0 <= j < |s| ==> key(s[j]) != x
  {
    if |s| == 0 then None
    else if key(s[0]) == x then Some(0)
    else match FirstWithKey(s[1..], key, x)
      case None => None
      case Some(k) => Some(k + 1)
  }

  /** The user-name query: the key and the value are both lower-cased. */
  function IndexByLogin(us: seq<Usuario>, login: string): Option<nat> {
    FirstWithKey(us, LoginKey, ToLower(login))
  }

  function IndexById(us: seq<Usuario>, id: int): Option<nat> {
    FirstWithKey(us, UsuarioId, id)
  }

  /** No two rows share a key. */
  ghost predicate KeysUnique<T, K>(s: seq<T>, key: T -> K) {
    forall i, j :: 0 <= i < j < |s| ==> key(s[i]) != key(s[j])
  }

  /** Under unique keys the first match is the only match. */
  lemma FirstIsOnlyMatch<T, K>(s: seq<T>, key: T -> K, i: nat)
    requires KeysUnique(s, key)
    requires i < |s|
    ensures FirstWithKey(s, key, key(s[i])) == Some(i)
  {
  }

  /** Appending a row whose key is absent keeps keys unique (the insert
      after a negative existence check). */
  lemma AppendFreshKeepsUnique<T, K>(s: seq<T>, key: T -> K, v: T)
    requires KeysUnique(s, key)
    requires FirstWithKey(s, key, key(v)).None?
    ensures KeysUnique(s + [v], key)
  {
  }

  /** Rewriting a row without changing its key keeps keys unique. */
  lemma WriteSameKeyKeepsUnique<T, K>(s: seq<T>, key: T -> K, k: nat, v: T)
    requires KeysUnique(s, key)
    requires k < |s| && key(v) == key(s[k])
    ensures KeysUnique(s[k := v], key)
  {
  }

  /** A query answers the same after a row is rewritten without changing its
      key: updating a profile field never moves a record or hides it. */
  lemma {:induction false} FirstAfterSameKeyWrite<T, K>(s: seq<T>, key: T -> K, k: nat, v: T, x: K)
    requires k < |s| && key(v) == key(s[k])
    ensures FirstWithKey(s[k := v], key, x) == FirstWithKey(s, key, x)
  {
    if k > 0 {
      assert s[k := v][1..] == s[1..][k - 1 := v];
      FirstAfterSameKeyWrite(s[1..], key, k - 1, v, x);
    } else {
      assert s[k := v][1..] == s[1..];
    }
  }

  /** What a query answers after a row is appended: the old answer if there
      was one, otherwise the new row if it has the key. */
  lemma {:induction false} FirstAfterAppend<T, K>(s: seq<T>, key: T -> K, v: T, x: K)
    ensures FirstWithKey(s + [v], key, x) ==
            match FirstWithKey(s, key, x)
            case Some(k) => Some(k)
            case None => if key(v) == x then Some(|s|) else None
  {
    if s != [] {
      assert (s + [v])[1..] == s[1..] + [v];
      FirstAfterAppend(s[1..], key, v, x);
    }
  }

  /** Both user queries find the same rows after a row is rewritten with the
      same id and user name. */
  lemma LookupsAfterRewrite(us: seq<Usuario>, k: nat, v: Usuario)
    requires k < |us| && v.id == us[k].id && v.username == us[k].username
    ensures forall id :: IndexById(us[k := v], id) == IndexById(us, id)
    ensures forall login :: IndexByLogin(us[k := v], login) == IndexByLogin(us, login)
  {
    forall id
      ensures IndexById(us[k := v], id) == IndexById(us, id)
    {
      FirstAfterSameKeyWrite(us, UsuarioId, k, v, id);
    }
    forall login
      ensures IndexByLogin(us[k := v], login) == IndexByLogin(us, login)
    {
      FirstAfterSameKeyWrite(us, LoginKey, k, v, ToLower(login));
    }
  }
}
