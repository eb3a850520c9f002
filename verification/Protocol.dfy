/** Commands and how an argument list becomes one (src/protocol/mod.rs, src/protocol/error.rs and
    `parse_command_args` of src/protocol/resp.rs). */
module Protocol {
  import opened Basics
  import opened Decimal

  datatype NormalCommand =
    | Ping(message: Option<Bytes>)
    | Echo(text: Bytes)
    | Get(key: Bytes)
    | Set(key: Bytes, value: Bytes, ttl: Option<nat>)
    | Del(keys: seq<Bytes>)
    | Exists(key: Bytes)
    | Incr(key: Bytes)
    | Decr(key: Bytes)
    | Expire(key: Bytes, seconds: nat)
    | Ttl(key: Bytes)
    | Publish(channel: Bytes, payload: Bytes)
    | IncrBy(key: Bytes, delta: i64)
    | DecrBy(key: Bytes, delta: i64)
    | Persist(key: Bytes)
    | Copy(source: Bytes, destination: Bytes, replace: bool)

  datatype SessionCommand =
    | Subscribe(channels: seq<Bytes>)
    | Unsubscribe(channels: seq<Bytes>)
    | Quit
    | Reset

  datatype Command =
    | Normal(normal: NormalCommand)
    | Session(session: SessionCommand)
    | Auth(password: Bytes)

  /** Why a frame was refused: the reasons `InvalidFrame` carries as text. */
  datatype FrameReason =
    | UnexpectedEof | EarlyEof | InvalidLineEnding | UnsupportedPrefix
    | NonUtf8Length | InvalidLength | NonUtf8String
    | NullArray | InvalidArrayLength | ArrayTooLarge | NestedArray
    | InvalidBulkLength | BulkTooLarge | InvalidBulkTerminator
    | NotAnArray | NotABulk

  datatype ProtocolError =
    | EmptyCommand
    | UnknownCommand(name: Bytes)
    | InvalidArgument
    | InvalidFrame(reason: FrameReason)

  datatype Parse = Command(command: Command) | Refused(error: ProtocolError)

  function UpperByte(b: byte): byte { if 97 <= b <= 122 then b - 32 else b }

  /** `make_ascii_uppercase`. */
  function Upper(s: Bytes): (r: Bytes)
    ensures |r| == |s|
  {
    seq(|s|, i requires 0 <= i < |s| => UpperByte(s[i]))
  }

  predicate EqIgnoreCase(s: Bytes, t: Bytes) { Upper(s) == Upper(t) }

  function Ok(c: NormalCommand): Parse { Command(Normal(c)) }

  function WithSeconds(text: Bytes, f: nat -> NormalCommand): Parse {
    match ParseU64(text)
    case Some(n) => Ok(f(n))
    case None => Refused(InvalidArgument)
  }

  function WithInteger(text: Bytes, f: i64 -> NormalCommand): Parse {
    match ParseI64(text)
    case Some(n) => Ok(f(n))
    case None => Refused(InvalidArgument)
  }

  function ParseCommandArgs(args: seq<Bytes>): Parse {
    if args == [] then Refused(EmptyCommand)
    else
      var cmd, n := Upper(args[0]), |args|;
      if cmd == Ascii("PING") && n == 1 then Ok(Ping(None))
      else if cmd == Ascii("PING") && n == 2 then Ok(Ping(Some(args[1])))
      else if cmd == Ascii("ECHO") && n == 2 then Ok(Echo(args[1]))
      else if cmd == Ascii("GET") && n == 2 then Ok(Get(args[1]))
      else if cmd == Ascii("SET") && n >= 3 then
        if n == 3 then Ok(Set(args[1], args[2], None))
        else if n == 5 && EqIgnoreCase(args[3], Ascii("EX")) then
          WithSeconds(args[4], (secs: nat) => Set(args[1], args[2], Some(secs)))
        else Refused(UnknownCommand(cmd))
      else if cmd == Ascii("DEL") && n >= 2 then Ok(Del(args[1..]))
      else if cmd == Ascii("EXISTS") && n == 2 then Ok(Exists(args[1]))
      else if cmd == Ascii("INCR") && n == 2 then Ok(Incr(args[1]))
      else if cmd == Ascii("DECR") && n == 2 then Ok(Decr(args[1]))
      else if cmd == Ascii("INCRBY") && n == 3 then WithInteger(args[2], (d: i64) => IncrBy(args[1], d))
      else if cmd == Ascii("DECRBY") && n == 3 then WithInteger(args[2], (d: i64) => DecrBy(args[1], d))
      else if cmd == Ascii("EXPIRE") && n == 3 then WithSeconds(args[2], (secs: nat) => Expire(args[1], secs))
      else if cmd == Ascii("TTL") && n == 2 then Ok(Ttl(args[1]))
      else if cmd == Ascii("PERSIST") && n == 2 then Ok(Persist(args[1]))
      else if cmd == Ascii("COPY") && n >= 3 then
        if n == 3 then Ok(Copy(args[1], args[2], false))
        else if n == 4 && EqIgnoreCase(args[3], Ascii("REPLACE")) then Ok(Copy(args[1], args[2], true))
        else Refused(UnknownCommand(cmd))
      else if cmd == Ascii("SUBSCRIBE") && n >= 2 then Command(Session(Subscribe(args[1..])))
      else if cmd == Ascii("UNSUBSCRIBE") then Command(Session(Unsubscribe(args[1..])))
      else if cmd == Ascii("PUBLISH") && n == 3 then Ok(Publish(args[1], args[2]))
      else if cmd == Ascii("AUTH") && n == 2 then Command(Auth(args[1]))
      else if cmd == Ascii("QUIT") && n == 1 then Command(Session(Quit))
      else if cmd == Ascii("RESET") && n == 1 then Command(Session(Reset))
      else Refused(UnknownCommand(cmd))
  }
}
