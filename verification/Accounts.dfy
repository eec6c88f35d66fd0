/** The hard-coded user database and the password check. */
module Accounts {
  import opened Bytes

  datatype Account = Account(name: Bytes, hash: Bytes)

  const MD5_DIGEST_SIZE := 16

  function Names(): seq<Bytes> {
    [Ascii("alice"), Ascii("bob"), Ascii("charlie")]
  }

  /** The database before init_user_database: names with zero hashes. */
  function StaticAccounts(): seq<Account> {
    seq(3, i requires 0 <= i < 3 => Account(Names()[i], seq(MD5_DIGEST_SIZE, _ => 0)))
  }

  /** Some account has this name and this password hash. */
  predicate Matches(db: seq<Account>, name: Bytes, digest: Bytes) {
    Account(name, digest) in db
  }

  /** The accounts with the hashes that the driver returned; where it failed, the hash in place stays. */
  function Hashed(accounts: seq<Account>, digests: seq<Option<Bytes>>): seq<Account>
    requires |digests| == |accounts|
  {
    seq(|accounts|, i requires 0 <= i < |accounts| =>
      if digests[i].Some? then accounts[i].(hash := digests[i].value) else accounts[i])
  }

  /** Hashes the built-in passwords in place. */
  method InitUserDatabase(db: array<Account>, digests: seq<Option<Bytes>>)
    requires |digests| == db.Length
    modifies db
    ensures db[..] == Hashed(old(db[..]), digests)
  {
    for i := 0 to db.Length
      invariant forall j :: 0 <= j < i ==> db[j] == Hashed(old(db[..]), digests)[j]
      invariant forall j :: i <= j < db.Length ==> db[j] == old(db[j])
    {
      if digests[i].Some? {
        db[i] := db[i].(hash := digests[i].value);
      }
    }
  }

  /** The password check, given what the driver returned for the password's MD5 hash. */
  method AuthenticateUser(db: seq<Account>, username: Bytes, digest: Option<Bytes>) returns (ok: bool)
    ensures ok <==> digest.Some? && Matches(db, username, digest.value)
  {
    if digest.None? {
      return false;
    }
    for i := 0 to |db|
      invariant Account(username, digest.value) !in db[..i]
    {
      if db[i].name == username {
        if db[i].hash == digest.value {
          return true;
        }
      }
    }
    assert db[..|db|] == db;
    return false;
  }

  function Passwords(): seq<Bytes> {
    [Ascii("password123"), Ascii("password456"), Ascii("password789")]
  }

  /** The database when the driver has hashed the three built-in passwords. */
  function Started(md5: Bytes -> Bytes): (db: seq<Account>)
    ensures |db| == 3
    ensures forall i :: 0 <= i < 3 ==> db[i] == Account(Names()[i], md5(Passwords()[i]))
  {
    Hashed(StaticAccounts(), seq(3, i requires 0 <= i < 3 => Some(md5(Passwords()[i]))))
  }

  /** With a working driver a login passes exactly when it has the name of an account and a password with
      the hash of that account's own password. */
  lemma BuiltInLogins(md5: Bytes -> Bytes, name: Bytes, password: Bytes)
    ensures Matches(Started(md5), name, md5(password))
      <==> exists i :: 0 <= i < 3 && name == Names()[i] && md5(password) == md5(Passwords()[i])
  {
    var db := Started(md5);
    if i :| 0 <= i < 3 && name == Names()[i] && md5(password) == md5(Passwords()[i]) {
      assert db[i] == Account(name, md5(password));
    }
  }

  /** A password that collides with none of the three passes exactly in the three built-in pairs. */
  lemma BuiltInPairs(md5: Bytes -> Bytes, name: Bytes, password: Bytes)
    requires forall i :: 0 <= i < 3 && md5(password) == md5(Passwords()[i]) ==> password == Passwords()[i]
    ensures Matches(Started(md5), name, md5(password))
      <==> exists i :: 0 <= i < 3 && name == Names()[i] && password == Passwords()[i]
  {
    BuiltInLogins(md5, name, password);
  }

  /** The three pairs. */
  lemma BuiltInPair(i: nat)
    requires i < 3
    ensures (Names()[i], Passwords()[i]) == match i
      case 0 => (Ascii("alice"), Ascii("password123"))
      case 1 => (Ascii("bob"), Ascii("password456"))
      case _ => (Ascii("charlie"), Ascii("password789"))
  {
    hide Ascii;
  }

  /** Where the driver failed for an account, its hash stays zero, so no password with another hash logs in. */
  lemma UnhashedAccount(digests: seq<Option<Bytes>>, i: nat, digest: Bytes)
    requires |digests| == 3 && i < 3 && digests[i] == None && |digest| == MD5_DIGEST_SIZE
    requires exists k :: 0 <= k < MD5_DIGEST_SIZE && digest[k] != 0
    ensures !Matches(Hashed(StaticAccounts(), digests), Names()[i], digest)
  {
  }
}
