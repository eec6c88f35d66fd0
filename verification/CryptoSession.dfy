/** The crypto device: one session for each open file, changed by ioctl calls. */
module CryptoSession {
  import opened Cbc

  const MAX_DATA_SIZE: nat := 4096

  type Area = data: Octets | |data| == MAX_DATA_SIZE witness seq(MAX_DATA_SIZE, _ => 0)

  const TWO_TO_THE_32: nat := 0x1_0000_0000

  /** unsigned int */
  type Word = n: nat | n < TWO_TO_THE_32

  /** struct crypto_data. */
  datatype Record = Record(input: Area, output: Area, key: Block, iv: Block, inputLen: Word, outputLen: Word)

  datatype Command =
    | SetKey(key: Block)
    | SetIv(iv: Block)
    | GetIv
    | Md5Hash(record: Record)
    | EncryptData(record: Record)
    | DecryptData(record: Record)
    | Other

  /** What the kernel contributes to one call: fresh random bytes and which services work. */
  datatype Env = Env(random: Block, copyIn: bool, memory: bool, crypto: bool, copyOut: bool)

  const ALL_WORKS: Env := Env(ZEROS, true, true, true, true)

  datatype Error = InvalidArgument | BadAddress | NoMemory | CryptoFailed

  datatype Reply =
    | Done
    | Vector(iv: Block)
    | Answer(record: Record)
    | Failed(error: Error)
    | Overrun  // the driver does not check lengths; what a longer one than the area does is not specified

  /** struct crypto_session. */
  datatype Session = Session(key: Block, iv: Block, keySet: bool, ivSet: bool)

  const FRESH: Session := Session(ZEROS, ZEROS, false, false)

  /** A request's key or vector counts as given when one of its first two bytes is not zero. */
  predicate Given(b: Block) {
    b[0] != 0 || b[1] != 0
  }

  /** ((input_len + 15) / 16) * 16, which wraps at the top of the range. */
  function Padded(n: Word): (r: Word)
    ensures r % 16 == 0
    ensures n <= MAX_DATA_SIZE ==> n <= r < n + 16 && r <= MAX_DATA_SIZE
  {
    (n + 15) % TWO_TO_THE_32 / 16 * 16
  }

  /** `src` written over the front of an area. */
  function Over(src: Octets, dst: Area): Area
    requires |src| <= MAX_DATA_SIZE
  {
    src + dst[|src|..]
  }

  // ----- One call as a function -----

  /** The vector that an encryption uses: the request's, the session's, or a fresh one. */
  function EncryptIv(s: Session, r: Record, random: Block): Block {
    if Given(r.iv) then r.iv else if s.ivSet then s.iv else random
  }

  function UsedKey(s: Session, r: Record): Block {
    if Given(r.key) then r.key else s.key
  }

  predicate Draws(s: Session, r: Record) {
    !Given(r.iv) && !s.ivSet
  }

  function EncryptReply(alg: Algorithms, s: Session, r: Record, env: Env): Reply {
    var iv := EncryptIv(s, r, env.random);
    var n := Padded(r.inputLen);
    if !env.crypto then Failed(CryptoFailed)
    else if n > MAX_DATA_SIZE then Overrun
    else if !env.copyOut then Failed(BadAddress)
    else Answer(r.(iv := iv, outputLen := n, output := Over(Encrypt(alg, UsedKey(s, r), iv, r.input[..n]), r.output)))
  }

  function DecryptReply(alg: Algorithms, s: Session, r: Record, env: Env): Reply {
    if !Given(r.iv) && !s.ivSet then Failed(InvalidArgument)
    else
      var iv := if Given(r.iv) then r.iv else s.iv;
      if !env.crypto then Failed(CryptoFailed)
      else if r.inputLen > MAX_DATA_SIZE then Overrun
      else if r.inputLen % 16 != 0 then Failed(InvalidArgument)  // cbc(aes) takes whole blocks only
      else if !env.copyOut then Failed(BadAddress)
      else Answer(r.(outputLen := r.inputLen,
                     output := Over(Decrypt(alg, UsedKey(s, r), iv, r.input[..r.inputLen]), r.output)))
  }

  /** The session after a call; the algorithms play no part in it. */
  function After(s: Session, cmd: Command, env: Env): Session {
    match cmd
    case SetKey(key) => if env.copyIn then s.(key := key, keySet := true) else s
    case SetIv(iv) => if env.copyIn then s.(iv := iv, ivSet := true) else s
    case GetIv => if s.ivSet then s else s.(iv := env.random, ivSet := true)
    case EncryptData(r) =>
      if s.keySet && env.memory && env.copyIn && Draws(s, r) then s.(iv := env.random, ivSet := true) else s
    case _ => s
  }

  function ReplyTo(alg: Algorithms, s: Session, cmd: Command, env: Env): Reply {
    match cmd
    case SetKey(_) => if env.copyIn then Done else Failed(BadAddress)
    case SetIv(_) => if env.copyIn then Done else Failed(BadAddress)
    case GetIv => if env.copyOut then Vector(After(s, cmd, env).iv) else Failed(BadAddress)
    case Md5Hash(r) =>
      if !env.memory then Failed(NoMemory)
      else if !env.copyIn then Failed(BadAddress)
      else if !env.crypto then Failed(CryptoFailed)
      else if r.inputLen > MAX_DATA_SIZE then Overrun
      else if !env.copyOut then Failed(BadAddress)
      else Answer(r.(outputLen := 16, output := Over(alg.md5(r.input[..r.inputLen]), r.output)))
    case EncryptData(r) =>
      if !s.keySet then Failed(InvalidArgument)
      else if !env.memory then Failed(NoMemory)
      else if !env.copyIn then Failed(BadAddress)
      else EncryptReply(alg, s, r, env)
    case DecryptData(r) =>
      if !s.keySet then Failed(InvalidArgument)
      else if !env.memory then Failed(NoMemory)
      else if !env.copyIn then Failed(BadAddress)
      else DecryptReply(alg, s, r, env)
    case Other => Failed(InvalidArgument)
  }

  // ----- The driver, writing the session in place -----

  class File {
    var live: bool
    var aesKey: Block
    var iv: Block
    var keySet: bool
    var ivSet: bool

    function State(): Session
      reads this
    {
      Session(aesKey, iv, keySet, ivSet)
    }

    /** device_open */
    constructor ()
      ensures live && State() == FRESH
    {
      live := true;
      aesKey, iv := ZEROS, ZEROS;
      keySet, ivSet := false, false;
    }

    /** device_release wipes the session. */
    method Release()
      modifies this
      ensures !live
      ensures old(live) ==> State() == FRESH
      ensures !old(live) ==> State() == old(State())
    {
      if live {
        aesKey, iv := ZEROS, ZEROS;
        keySet, ivSet := false, false;
        live := false;
      }
    }

    method Ioctl(alg: Algorithms, cmd: Command, env: Env) returns (reply: Reply)
      modifies this
      ensures live == old(live)
      ensures live ==> State() == After(old(State()), cmd, env) && reply == ReplyTo(alg, old(State()), cmd, env)
      ensures !live ==> State() == old(State()) && reply == Failed(InvalidArgument)
    {
      if !live {
        return Failed(InvalidArgument);
      }
      match cmd
      case SetKey(key) =>
        if !env.copyIn {
          return Failed(BadAddress);
        }
        aesKey := key;
        keySet := true;
        return Done;
      case SetIv(newIv) =>
        if !env.copyIn {
          return Failed(BadAddress);
        }
        iv := newIv;
        ivSet := true;
        return Done;
      case GetIv =>
        if !ivSet {
          iv := env.random;
          ivSet := true;
        }
        if !env.copyOut {
          return Failed(BadAddress);
        }
        return Vector(iv);
      case Md5Hash(data) =>
        reply := Md5(alg, data, env);
      case EncryptData(data) =>
        reply := EncryptIoctl(alg, data, env);
      case DecryptData(data) =>
        reply := DecryptIoctl(alg, data, env);
      case Other =>
        return Failed(InvalidArgument);
    }

    method Md5(alg: Algorithms, data: Record, env: Env) returns (reply: Reply)
      ensures reply == ReplyTo(alg, State(), Md5Hash(data), env)
    {
      if !env.memory {
        return Failed(NoMemory);
      }
      if !env.copyIn {
        return Failed(BadAddress);
      }
      if !env.crypto {
        return Failed(CryptoFailed);
      }
      if data.inputLen > MAX_DATA_SIZE {
        return Overrun;
      }
      if !env.copyOut {
        return Failed(BadAddress);
      }
      var digest := alg.md5(data.input[..data.inputLen]);
      return Answer(data.(outputLen := 16, output := Over(digest, data.output)));
    }

    method EncryptIoctl(alg: Algorithms, data: Record, env: Env) returns (reply: Reply)
      modifies this`iv, this`ivSet
      ensures State() == After(old(State()), EncryptData(data), env)
      ensures reply == ReplyTo(alg, old(State()), EncryptData(data), env)
    {
      if !keySet {
        return Failed(InvalidArgument);
      }
      if !env.memory {
        return Failed(NoMemory);
      }
      if !env.copyIn {
        return Failed(BadAddress);
      }
      var kdata := data;
      var ivBuf := kdata.iv;
      if kdata.iv[0] != 0 || kdata.iv[1] != 0 {
        ivBuf := kdata.iv;
      } else if ivSet {
        ivBuf := iv;
        kdata := kdata.(iv := iv);
      } else {
        ivBuf := env.random;
        kdata := kdata.(iv := ivBuf);
        iv := ivBuf;
        ivSet := true;
      }
      var keyBuf := aesKey;
      if kdata.key[0] != 0 || kdata.key[1] != 0 {
        keyBuf := kdata.key;
      }
      kdata := kdata.(outputLen := (kdata.inputLen + 15) % TWO_TO_THE_32 / 16 * 16);
      if !env.crypto {
        return Failed(CryptoFailed);
      }
      if kdata.outputLen > MAX_DATA_SIZE {
        return Overrun;
      }
      kdata := kdata.(output := Over(Encrypt(alg, keyBuf, ivBuf, kdata.input[..kdata.outputLen]), kdata.output));
      if !env.copyOut {
        return Failed(BadAddress);
      }
      return Answer(kdata);
    }

    method DecryptIoctl(alg: Algorithms, data: Record, env: Env) returns (reply: Reply)
      ensures reply == ReplyTo(alg, State(), DecryptData(data), env)
    {
      if !keySet {
        return Failed(InvalidArgument);
      }
      if !env.memory {
        return Failed(NoMemory);
      }
      if !env.copyIn {
        return Failed(BadAddress);
      }
      var kdata := data;
      var ivBuf := kdata.iv;
      if kdata.iv[0] != 0 || kdata.iv[1] != 0 {
        ivBuf := kdata.iv;
      } else if ivSet {
        ivBuf := iv;
      } else {
        return Failed(InvalidArgument);
      }
      var keyBuf := aesKey;
      if kdata.key[0] != 0 || kdata.key[1] != 0 {
        keyBuf := kdata.key;
      }
      if !env.crypto {
        return Failed(CryptoFailed);
      }
      if kdata.inputLen > MAX_DATA_SIZE {
        return Overrun;
      }
      if kdata.inputLen % 16 != 0 {
        return Failed(InvalidArgument);
      }
      kdata := kdata.(output := Over(Decrypt(alg, keyBuf, ivBuf, kdata.input[..kdata.inputLen]), kdata.output));
      kdata := kdata.(outputLen := kdata.inputLen);
      if !env.copyOut {
        return Failed(BadAddress);
      }
      return Answer(kdata);
    }
  }
}
