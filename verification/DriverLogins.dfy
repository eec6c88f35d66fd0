/** The password check with the driver behind it: what the server's MD5 calls on the crypto device make of the
    built-in accounts and of a login. */
module DriverLogins {
  import opened Accounts
  import opened Bytes
  import opened Cbc
  import opened CryptoRuns
  import opened CryptoSession

  function ToOctets(b: Bytes): (o: Octets)
    ensures |o| == |b|
  {
    seq(|b|, i requires 0 <= i < |b| => b[i] as bv8)
  }

  function ToBytes(o: Octets): (b: Bytes)
    ensures |b| == |o|
  {
    seq(|o|, i requires 0 <= i < |o| => o[i] as byte)
  }

  /** The server's AES key is the text "1234567890123456". */
  lemma ServerKeyIs()
    ensures SERVER_KEY == ToOctets(Ascii("1234567890123456"))
  {
  }

  /** What md5_hash hands the server for a text, or None for its -1. */
  function AskDriver(alg: Algorithms, s: Session, text: Bytes, env: Env): Option<Bytes> {
    match Md5Msg(alg, s, ToOctets(text), env)
    case Copied(digest) => Some(ToBytes(digest))
    case MinusOne => None
  }

  function Md5(alg: Algorithms): Bytes -> Bytes {
    text => ToBytes(alg.md5(ToOctets(text)))
  }

  lemma DriverHashes(alg: Algorithms, s: Session, text: Bytes, env: Env)
    ensures AskDriver(alg, s, text, env) == if |text| <= 4096 && Works(env) then Some(Md5(alg)(text)) else None
  {
    Md5MsgHashes(alg, s, ToOctets(text), env);
  }

  /** The digests with which init_user_database finds its three passwords hashed. */
  function AtStart(alg: Algorithms, s: Session, env: Env): (digests: seq<Option<Bytes>>)
    ensures |digests| == 3
  {
    seq(3, i requires 0 <= i < 3 => AskDriver(alg, s, Passwords()[i], env))
  }

  lemma StartedByDriver(alg: Algorithms, s: Session, env: Env)
    requires Works(env)
    ensures Hashed(StaticAccounts(), AtStart(alg, s, env)) == Started(Md5(alg))
  {
    forall i | 0 <= i < 3 ensures AtStart(alg, s, env)[i] == Some(Md5(alg)(Passwords()[i])) {
      DriverHashes(alg, s, Passwords()[i], env);
    }
    assert Hashed(StaticAccounts(), AtStart(alg, s, env)) == Started(Md5(alg));
  }

  predicate SameHash(alg: Algorithms, a: Bytes, b: Bytes) {
    alg.md5(ToOctets(a)) == alg.md5(ToOctets(b))
  }

  /** With the driver behind both, and whatever the session holds at the start and at the login: a login passes
      exactly when its call works and it has the name of an account and a password with the MD5 hash of that
      account's own password. */
  lemma DriverLogin(alg: Algorithms, first: Session, later: Session, name: Bytes, password: Bytes, env: Env)
    requires |password| <= 4096
    ensures var db := Hashed(StaticAccounts(), AtStart(alg, first, ALL_WORKS));
      var digest := AskDriver(alg, later, password, env);
      digest.Some? && Matches(db, name, digest.value) <==>
        Works(env) && exists i :: 0 <= i < 3 && name == Names()[i] && SameHash(alg, password, Passwords()[i])
  {
    StartedByDriver(alg, first, ALL_WORKS);
    DriverHashes(alg, later, password, env);
    BuiltInLogins(Md5(alg), name, password);
    forall i | 0 <= i < 3
      ensures Md5(alg)(password) == Md5(alg)(Passwords()[i]) <==> SameHash(alg, password, Passwords()[i])
    {
      SameBytes(alg.md5(ToOctets(password)), alg.md5(ToOctets(Passwords()[i])));
    }
  }

  lemma SameBytes(a: Octets, b: Octets)
    ensures ToBytes(a) == ToBytes(b) <==> a == b
  {
    if ToBytes(a) == ToBytes(b) {
      forall i | 0 <= i < |a| ensures a[i] == b[i] {
        assert ToBytes(a)[i] == ToBytes(b)[i];
      }
    }
  }
}
