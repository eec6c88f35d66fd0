/** What holds over whole sequences of ioctl calls on one open file. */
module CryptoRuns {
  import opened Cbc
  import opened CryptoSession

  type History = seq<(Command, Env)>

  /** Every service of the kernel works. */
  predicate Works(env: Env) {
    env.memory && env.copyIn && env.crypto && env.copyOut
  }

  function Exec(s: Session, h: History): Session
    decreases |h|
  {
    if h == [] then s else Exec(After(s, h[0].0, h[0].1), h[1..])
  }

  // ----- What a history does to key and vector -----

  /** The key after the successful SET_KEY calls of a history. */
  function LastKey(h: History, key: Block): Block
    decreases |h|
  {
    if h == [] then key
    else LastKey(h[1..], if h[0].0.SetKey? && h[0].1.copyIn then h[0].0.key else key)
  }

  /** The vector after the successful SET_IV calls of a history. */
  function LastIv(h: History, iv: Block): Block
    decreases |h|
  {
    if h == [] then iv
    else LastIv(h[1..], if h[0].0.SetIv? && h[0].1.copyIn then h[0].0.iv else iv)
  }

  predicate SetsKey(h: History) {
    exists i :: 0 <= i < |h| && h[i].0.SetKey? && h[i].1.copyIn
  }

  predicate SetsIv(h: History) {
    exists i :: 0 <= i < |h| && h[i].0.SetIv? && h[i].1.copyIn
  }

  /** A call after which `ivSet` holds, whatever it was before: a successful SET_IV, a GET_IV, or an encryption
      without its own vector that gets as far as choosing one. */
  predicate Latches(keySet: bool, cmd: Command, env: Env) {
    match cmd
    case SetIv(_) => env.copyIn
    case GetIv => true
    case EncryptData(r) => keySet && env.memory && env.copyIn && !Given(r.iv)
    case _ => false
  }

  predicate LatchesIv(keySet: bool, h: History)
    decreases |h|
  {
    h != [] &&
    (Latches(keySet, h[0].0, h[0].1) || LatchesIv(keySet || (h[0].0.SetKey? && h[0].1.copyIn), h[1..]))
  }

  lemma SetsKeyFirst(h: History)
    requires h != []
    ensures SetsKey(h) <==> (h[0].0.SetKey? && h[0].1.copyIn) || SetsKey(h[1..])
  {
    if SetsKey(h) {
      var i :| 0 <= i < |h| && h[i].0.SetKey? && h[i].1.copyIn;
      assert i > 0 ==> h[1..][i - 1] == h[i];
    }
    if SetsKey(h[1..]) {
      var i :| 0 <= i < |h[1..]| && h[1..][i].0.SetKey? && h[1..][i].1.copyIn;
      assert h[i + 1] == h[1..][i];
    }
  }

  /** Keys and flags over a run: the key is the last one set, `keySet` and `ivSet` hold from the first call that
      sets them, and once `ivSet` holds only SET_IV changes the vector. */
  lemma {:induction false} SessionOverRuns(s: Session, h: History)
    ensures Exec(s, h).key == LastKey(h, s.key)
    ensures Exec(s, h).keySet <==> s.keySet || SetsKey(h)
    ensures Exec(s, h).ivSet <==> s.ivSet || LatchesIv(s.keySet, h)
    ensures s.ivSet ==> Exec(s, h).iv == LastIv(h, s.iv)
    decreases |h|
  {
    if h != [] {
      SessionOverRuns(After(s, h[0].0, h[0].1), h[1..]);
      SetsKeyFirst(h);
    }
  }

  lemma {:induction false} NothingSet(h: History, b: Block)
    ensures !SetsKey(h) ==> LastKey(h, b) == b
    ensures !SetsIv(h) ==> LastIv(h, b) == b
    decreases |h|
  {
    if h != [] {
      NothingSet(h[1..], b);
      forall i | 0 <= i < |h[1..]| ensures h[1..][i] == h[i + 1] {}
    }
  }

  /** Between two SET_IVs every GET_IV and every encryption without a vector of its own uses one and
      the same vector, whatever else is called. */
  lemma IvIsStable(alg: Algorithms, s: Session, h: History, env: Env, r: Record)
    requires s.ivSet && !SetsIv(h)
    ensures Exec(s, h).iv == s.iv
    ensures ReplyTo(alg, Exec(s, h), GetIv, env) in {Vector(s.iv), Failed(BadAddress)}
    ensures var reply := ReplyTo(alg, Exec(s, h), EncryptData(r), env);
      reply.Answer? && !Given(r.iv) ==> reply.record.iv == s.iv
  {
    SessionOverRuns(s, h);
    NothingSet(h, s.iv);
  }

  // ----- Which key and which vector are in use -----

  /** The request and its padding stay within the areas. */
  predicate Fits(r: Record) {
    Padded(r.inputLen) <= MAX_DATA_SIZE
  }

  lemma OverFront(src: Octets, dst: Area)
    requires |src| <= MAX_DATA_SIZE
    ensures Over(src, dst)[..|src|] == src && Over(src, dst)[|src|..] == dst[|src|..]
  {
  }

  lemma {:induction false} ExecConcat(s: Session, a: History, b: History)
    ensures Exec(s, a + b) == Exec(Exec(s, a), b)
    decreases |a|
  {
    if a == [] {
      assert a + b == b;
    } else {
      assert (a + b)[1..] == a[1..] + b;
      ExecConcat(After(s, a[0].0, a[0].1), a[1..], b);
    }
  }

  /** A history is what comes before a call, the call, and what comes after it. */
  lemma ExecAround(s: Session, h: History, i: nat)
    requires i < |h|
    ensures Exec(s, h) == Exec(After(Exec(s, h[..i]), h[i].0, h[i].1), h[i + 1..])
  {
    assert h == h[..i] + h[i..] && h[i..][1..] == h[i + 1..];
    ExecConcat(s, h[..i], h[i..]);
  }

  /** The key in use is the one of the last successful SET_KEY, the vector the one of the last successful SET_IV. */
  lemma LastSetIsInUse(s: Session, h: History, i: nat)
    requires i < |h| && h[i].1.copyIn
    ensures h[i].0.SetKey? && !SetsKey(h[i + 1..]) ==> Exec(s, h).keySet && Exec(s, h).key == h[i].0.key
    ensures h[i].0.SetIv? && !SetsIv(h[i + 1..]) ==> Exec(s, h).ivSet && Exec(s, h).iv == h[i].0.iv
  {
    ExecAround(s, h, i);
    var now := After(Exec(s, h[..i]), h[i].0, h[i].1);
    SessionOverRuns(now, h[i + 1..]);
    NothingSet(h[i + 1..], now.key);
    NothingSet(h[i + 1..], now.iv);
  }

  /** Without a SET_IV it is what the kernel drew for the first GET_IV, or for the first encryption without a
      vector that got that far, even if that encryption then failed. */
  lemma DrawnIsInUse(s: Session, h: History, i: nat)
    requires i < |h| && !s.ivSet && !LatchesIv(s.keySet, h[..i]) && !SetsIv(h[i..])
    requires Latches(s.keySet || SetsKey(h[..i]), h[i].0, h[i].1)
    ensures Exec(s, h).ivSet && Exec(s, h).iv == h[i].1.random
  {
    ExecAround(s, h, i);
    SessionOverRuns(s, h[..i]);
    assert h[i..][0] == h[i];
    assert h[i].0.SetIv? && h[i].1.copyIn ==> SetsIv(h[i..]);
    var now := After(Exec(s, h[..i]), h[i].0, h[i].1);
    SessionOverRuns(now, h[i + 1..]);
    NothingSet(h[i + 1..], now.iv);
  }

  /** What an encryption answers: the vector is the request's if it has a nonzero prefix, otherwise the session's
      if it has one, otherwise the one drawn, which the session keeps; the data is enciphered under that vector,
      and under the request's key if it has a nonzero prefix, otherwise the session's. */
  lemma EncryptAnswers(alg: Algorithms, s: Session, r: Record, env: Env)
    requires ReplyTo(alg, s, EncryptData(r), env).Answer?
    ensures var sent := ReplyTo(alg, s, EncryptData(r), env).record; var s' := After(s, EncryptData(r), env);
      && (r.iv[0] != 0 || r.iv[1] != 0 ==> sent.iv == r.iv && s' == s)
      && (r.iv[0] == r.iv[1] == 0 && s.ivSet ==> sent.iv == s.iv && s' == s)
      && (r.iv[0] == r.iv[1] == 0 && !s.ivSet ==> sent.iv == env.random && s' == s.(iv := env.random, ivSet := true))
    ensures var sent := ReplyTo(alg, s, EncryptData(r), env).record; var n := sent.outputLen;
      && n % 16 == 0 && n <= MAX_DATA_SIZE && (r.inputLen <= MAX_DATA_SIZE ==> r.inputLen <= n < r.inputLen + 16)
      && (r.key[0] != 0 || r.key[1] != 0 ==> sent.output[..n] == Encrypt(alg, r.key, sent.iv, r.input[..n]))
      && (r.key[0] == r.key[1] == 0 ==> s.keySet && sent.output[..n] == Encrypt(alg, s.key, sent.iv, r.input[..n]))
      && sent.output[n..] == r.output[n..]
      && sent.input == r.input && sent.key == r.key && sent.inputLen == r.inputLen
  {
    var iv := EncryptIv(s, r, env.random);
    OverFront(Encrypt(alg, UsedKey(s, r), iv, r.input[..Padded(r.inputLen)]), r.output);
  }

  /** SET_KEY and SET_IV answer 0 exactly when their copy works; a copy that fails, and a number that is no command,
      change nothing. */
  lemma SettersAnswer(alg: Algorithms, s: Session, block: Block, env: Env)
    ensures forall cmd :: cmd in {SetKey(block), SetIv(block)} ==>
      if env.copyIn then ReplyTo(alg, s, cmd, env) == Done
      else ReplyTo(alg, s, cmd, env) == Failed(BadAddress) && After(s, cmd, env) == s
    ensures ReplyTo(alg, s, Other, env) == Failed(InvalidArgument) && After(s, Other, env) == s
  {
  }

  /** Why an encryption fails: -EINVAL without a key, -ENOMEM without memory, -EFAULT where a copy fails, and
      otherwise the cipher's own error. */
  lemma EncryptFails(alg: Algorithms, s: Session, r: Record, env: Env)
    ensures var reply := ReplyTo(alg, s, EncryptData(r), env);
      && (reply == Failed(InvalidArgument) <==> !s.keySet)
      && (reply == Failed(NoMemory) <==> s.keySet && !env.memory)
      && (s.keySet && env.memory ==>
            && (!env.copyIn ==> reply == Failed(BadAddress))
            && (env.copyIn && !env.crypto <==> reply == Failed(CryptoFailed))
            && (env.copyIn && env.crypto && Fits(r) ==> (reply == Failed(BadAddress) <==> !env.copyOut)))
  {
  }

  /** A decryption fails with -EINVAL also without a vector and for anything but whole blocks. */
  lemma DecryptFails(alg: Algorithms, s: Session, r: Record, env: Env)
    requires env.memory && env.copyIn && r.inputLen <= MAX_DATA_SIZE
    ensures var reply := ReplyTo(alg, s, DecryptData(r), env); var vector := r.iv[0] != 0 || r.iv[1] != 0 || s.ivSet;
      && (reply == Failed(CryptoFailed) <==> s.keySet && vector && !env.crypto)
      && (reply == Failed(InvalidArgument) <==>
            !s.keySet || !vector || (env.crypto && r.inputLen % 16 != 0))
      && (reply == Failed(BadAddress) <==> s.keySet && vector && env.crypto && r.inputLen % 16 == 0 && !env.copyOut)
  {
  }

  /** GET_IV answers the session's vector, and draws one for a session without. */
  lemma GetIvAnswers(alg: Algorithms, s: Session, env: Env)
    ensures env.copyOut ==>
      ReplyTo(alg, s, GetIv, env) == Vector(if s.ivSet then s.iv else env.random) == Vector(After(s, GetIv, env).iv)
    ensures !env.copyOut ==> ReplyTo(alg, s, GetIv, env) == Failed(BadAddress)
  {
  }

  // ----- A record returned by ENCRYPT and fed back to DECRYPT -----

  /** The decrypt request made from an encrypted record: its output becomes the input. */
  predicate FeedsBack(sent: Record, back: Record) {
    && back.key == sent.key && back.iv == sent.iv
    && back.inputLen == sent.outputLen <= MAX_DATA_SIZE
    && back.input[..back.inputLen] == sent.output[..back.inputLen]
  }

  /** The whole output area fed back as it is. */
  function Back(sent: Record): Record {
    sent.(input := sent.output, inputLen := sent.outputLen)
  }

  /** The three requests leave the areas only with a length above the limit that the server's wrappers check. */
  lemma WithinLimits(alg: Algorithms, s: Session, r: Record, env: Env)
    requires r.inputLen <= MAX_DATA_SIZE
    ensures Fits(r)
    ensures forall cmd :: cmd in {Md5Hash(r), EncryptData(r), DecryptData(r)} ==> !ReplyTo(alg, s, cmd, env).Overrun?
  {
  }

  /** The request survives: the decryption answers with the block-padded input. */
  predicate Recovered(reply: Reply, r: Record)
    requires Fits(r)
  {
    var n := Padded(r.inputLen);
    reply.Answer? && reply.record.outputLen == n && reply.record.output[..n] == r.input[..n]
  }

  /** What DECRYPT answers to a fed-back record after any history, in terms of the data alone. */
  lemma FedBackReply(alg: Algorithms, s: Session, r: Record, env: Env, h: History, back: Record)
    requires ReplyTo(alg, s, EncryptData(r), env).Answer?
    requires FeedsBack(ReplyTo(alg, s, EncryptData(r), env).record, back)
    ensures var s1 := After(s, EncryptData(r), env); var sent := ReplyTo(alg, s, EncryptData(r), env).record;
      var n := Padded(r.inputLen); var reply := ReplyTo(alg, Exec(s1, h), DecryptData(back), ALL_WORKS);
      && reply.Answer? && reply.record.outputLen == n
      && reply.record.output[..n] == Decrypt(alg,
           if Given(r.key) then r.key else LastKey(h, s.key),
           if Given(sent.iv) then sent.iv else LastIv(h, sent.iv),
           Encrypt(alg, UsedKey(s, r), sent.iv, r.input[..n]))
  {
    var s1 := After(s, EncryptData(r), env);
    var sent := ReplyTo(alg, s, EncryptData(r), env).record;
    var n := Padded(r.inputLen);
    var data := Encrypt(alg, UsedKey(s, r), sent.iv, r.input[..n]);
    OverFront(data, r.output);
    SessionOverRuns(s1, h);
    var s2 := Exec(s1, h);
    assert back.input[..n] == data;
    var plain := Decrypt(alg, UsedKey(s2, back), if Given(back.iv) then back.iv else s2.iv, data);
    OverFront(plain, back.output);
  }

  /** A key or vector that the request carries itself, or that is the session's before and after. */
  predicate Stays(given: Block, before: Block, after: Block) {
    Given(given) || after == before
  }

  /** A record that ENCRYPT returned is decrypted back under every cipher, after any sequence of calls
      on the file, exactly when it pads to nothing, or its vector and its key, where they were left to the
      session, are still the session's. */
  lemma SessionRoundTripIff(s: Session, r: Record, env: Env, h: History)
    requires Fits(r) && s.keySet && Works(env)
    ensures var iv := EncryptIv(s, r, env.random);
      (forall alg :: IsCipher(alg) ==>
        Recovered(ReplyTo(alg, Exec(After(s, EncryptData(r), env), h),
                          DecryptData(Back(ReplyTo(alg, s, EncryptData(r), env).record)), ALL_WORKS), r))
      <==> Padded(r.inputLen) == 0 || (Stays(iv, iv, LastIv(h, iv)) && Stays(r.key, s.key, LastKey(h, s.key)))
  {
    var iv := EncryptIv(s, r, env.random);
    var n := Padded(r.inputLen);
    var data := r.input[..n];
    var key' := if Given(r.key) then r.key else LastKey(h, s.key);
    var iv' := if Given(iv) then iv else LastIv(h, iv);
    forall alg
      ensures Recovered(ReplyTo(alg, Exec(After(s, EncryptData(r), env), h),
                                DecryptData(Back(ReplyTo(alg, s, EncryptData(r), env).record)), ALL_WORKS), r)
         <==> Decrypt(alg, key', iv', Encrypt(alg, UsedKey(s, r), iv, data)) == data
    {
      FedBackReply(alg, s, r, env, h, Back(ReplyTo(alg, s, EncryptData(r), env).record));
    }
    DecryptsUnderEveryCipherIff(UsedKey(s, r), iv, key', iv', data);
    assert data == [] <==> n == 0;
  }

  /** In particular nothing is lost when no SET_IV and no SET_KEY intervened, and a request that
      carries its own key and vector survives even those. */
  lemma SessionRoundTrip(alg: Algorithms, s: Session, r: Record, env: Env, h: History, back: Record)
    requires IsCipher(alg) && ReplyTo(alg, s, EncryptData(r), env).Answer?
    requires FeedsBack(ReplyTo(alg, s, EncryptData(r), env).record, back)
    requires Given(back.iv) || !SetsIv(h)
    requires Given(back.key) || !SetsKey(h)
    ensures Recovered(ReplyTo(alg, Exec(After(s, EncryptData(r), env), h), DecryptData(back), ALL_WORKS), r)
  {
    var sent := ReplyTo(alg, s, EncryptData(r), env).record;
    FedBackReply(alg, s, r, env, h, back);
    NothingSet(h, sent.iv);
    NothingSet(h, s.key);
    DecryptEncrypt(alg, UsedKey(s, r), sent.iv, r.input[..Padded(r.inputLen)]);
  }

  // ----- The server's wrappers -----

  /** The server's AES key, "1234567890123456". */
  const SERVER_KEY: Block := [49, 50, 51, 52, 53, 54, 55, 56, 57, 48, 49, 50, 51, 52, 53, 54]

  function Blank(): (area: Area)
    ensures forall i :: 0 <= i < MAX_DATA_SIZE ==> area[i] == 0
  {
    seq(MAX_DATA_SIZE, _ => 0)
  }

  /** The zeroed request that both wrappers fill in. */
  function Request(data: Octets): Record
    requires |data| <= MAX_DATA_SIZE
  {
    Record(Over(data, Blank()), Blank(), SERVER_KEY, ZEROS, |data|, 0)
  }

  /** The bytes that a wrapper copies out, or its return value -1. */
  datatype Outcome = Copied(data: Octets) | MinusOne

  function OutcomeOf(reply: Reply): Outcome {
    if reply.Answer? && reply.record.outputLen <= MAX_DATA_SIZE then
      Copied(reply.record.output[..reply.record.outputLen])
    else MinusOne
  }

  /** The request of md5_hash. */
  function Md5Request(data: Octets): Record
    requires |data| <= MAX_DATA_SIZE
  {
    Record(Over(data, Blank()), Blank(), ZEROS, ZEROS, |data|, 0)
  }

  function Md5Msg(alg: Algorithms, s: Session, data: Octets, env: Env): Outcome {
    if |data| > MAX_DATA_SIZE then MinusOne
    else
      match ReplyTo(alg, s, Md5Hash(Md5Request(data)), env)
      case Answer(record) => Copied(record.output[..16])
      case _ => MinusOne
  }

  /** md5_hash gives the hash of exactly the bytes that it was given, in every session, and leaves the session
      as it is; it fails exactly when the length or a service of the kernel does. */
  lemma Md5MsgHashes(alg: Algorithms, s: Session, data: Octets, env: Env)
    ensures Md5Msg(alg, s, data, env) == if |data| <= 4096 && Works(env) then Copied(alg.md5(data)) else MinusOne
    ensures |data| <= 4096 ==> After(s, Md5Hash(Md5Request(data)), env) == s
  {
    if |data| <= MAX_DATA_SIZE {
      OverFront(data, Blank());
      OverFront(alg.md5(data), Blank());
    }
  }

  function AesEncryptMsg(alg: Algorithms, s: Session, plaintext: Octets, env: Env): Outcome {
    if |plaintext| > MAX_DATA_SIZE then MinusOne
    else OutcomeOf(ReplyTo(alg, s, EncryptData(Request(plaintext)), env))
  }

  function AesDecryptMsg(alg: Algorithms, s: Session, ciphertext: Octets, env: Env): Outcome {
    if |ciphertext| > MAX_DATA_SIZE then MinusOne
    else OutcomeOf(ReplyTo(alg, s, DecryptData(Request(ciphertext)), env))
  }

  /** The session after aes_encrypt_msg. */
  function AfterEncryptMsg(s: Session, plaintext: Octets, env: Env): Session {
    if |plaintext| > MAX_DATA_SIZE then s else After(s, EncryptData(Request(plaintext)), env)
  }

  function ZeroPadded(p: Octets): Octets
    requires |p| <= MAX_DATA_SIZE
  {
    p + seq(Padded(|p|) - |p|, _ => 0)
  }

  lemma RequestData(p: Octets)
    requires |p| <= MAX_DATA_SIZE
    ensures Request(p).input[..Padded(|p|)] == ZeroPadded(p)
  {
  }

  lemma WrapperReplies(alg: Algorithms, s: Session, p: Octets, env: Env, h: History)
    requires |p| <= MAX_DATA_SIZE
    requires s.keySet && Works(env)
    ensures var s1 := AfterEncryptMsg(s, p, env); var c := AesEncryptMsg(alg, s, p, env);
      && s1.ivSet
      && c == Copied(Encrypt(alg, SERVER_KEY, s1.iv, ZeroPadded(p)))
      && AesDecryptMsg(alg, Exec(s1, h), c.data, ALL_WORKS)
      == Copied(Decrypt(alg, SERVER_KEY, LastIv(h, s1.iv), c.data))
  {
    var s1 := AfterEncryptMsg(s, p, env);
    RequestData(p);
    var c := Encrypt(alg, SERVER_KEY, s1.iv, ZeroPadded(p));
    OverFront(c, Blank());
    SessionOverRuns(s1, h);
    OverFront(Decrypt(alg, SERVER_KEY, LastIv(h, s1.iv), c), Blank());
  }

  /** The wrappers never pass the vector on, and still aes_decrypt_msg gives back what aes_encrypt_msg
      was given, padded with zeros to whole blocks, under every cipher exactly when there was nothing to
      encrypt or the session's vector is still the one that the encryption used. */
  lemma WrapperRoundTripIff(s: Session, p: Octets, env: Env, h: History)
    requires |p| <= MAX_DATA_SIZE
    requires s.keySet && Works(env)
    ensures var s1 := AfterEncryptMsg(s, p, env);
      && s1.ivSet
      && ((forall alg :: IsCipher(alg) ==>
            var c := AesEncryptMsg(alg, s, p, env);
            c.Copied? && AesDecryptMsg(alg, Exec(s1, h), c.data, ALL_WORKS) == Copied(ZeroPadded(p)))
          <==> p == [] || LastIv(h, s1.iv) == s1.iv)
  {
    var s1 := AfterEncryptMsg(s, p, env);
    var iv' := LastIv(h, s1.iv);
    RequestData(p);
    forall alg
      ensures var c := AesEncryptMsg(alg, s, p, env);
        c == Copied(Encrypt(alg, SERVER_KEY, s1.iv, ZeroPadded(p)))
        && AesDecryptMsg(alg, Exec(s1, h), c.data, ALL_WORKS) == Copied(Decrypt(alg, SERVER_KEY, iv', c.data))
    {
      WrapperReplies(alg, s, p, env, h);
    }
    DecryptsUnderEveryCipherIff(SERVER_KEY, s1.iv, SERVER_KEY, iv', ZeroPadded(p));
    assert ZeroPadded(p) == [] <==> p == [];
  }

  /** On a newly opened file aes_encrypt_msg works exactly when some earlier call has set a key, which the
      server never does, the text fits, and the kernel's services work. aes_decrypt_msg needs whole blocks
      and, besides the key, a vector that some earlier call has latched. */
  lemma WrappersNeedSetKey(alg: Algorithms, h: History, p: Octets, env: Env)
    ensures AesEncryptMsg(alg, Exec(FRESH, h), p, env).Copied? <==> |p| <= MAX_DATA_SIZE && SetsKey(h) && Works(env)
    ensures AesDecryptMsg(alg, Exec(FRESH, h), p, env).Copied? <==>
      |p| <= MAX_DATA_SIZE && |p| % 16 == 0 && SetsKey(h) && LatchesIv(false, h) && Works(env)
  {
    SessionOverRuns(FRESH, h);
  }
}
