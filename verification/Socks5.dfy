/** The SOCKS5 handshake of RFC 1928 and RFC 1929: the client that talks to exits, the
    server that talks to callers, and the agreement between them. */
module Socks5 {
  import opened Common

  type Byte = b: int | 0 <= b < 256 witness 0

  type Bytes = seq<Byte>

  function Value(b: Byte): nat { b }

  const VERSION: Byte := 5
  const AUTH_VERSION: Byte := 1
  const NO_AUTH: Byte := 0
  const USER_PASS: Byte := 2
  const NO_ACCEPTABLE: Byte := 255
  const CONNECT: Byte := 1
  const IPV4: Byte := 1
  const DOMAIN: Byte := 3
  const IPV6: Byte := 4
  const SUCCESS: Byte := 0
  const COMMAND_NOT_SUPPORTED: Byte := 7
  const ADDRESS_NOT_SUPPORTED: Byte := 8

  /** An IP address in its shortest form: a mapped IPv4 address is an IPv4 address. */
  datatype IP = V4(bytes: Bytes) | V6(bytes: Bytes)

  predicate ValidIP(ip: IP) { if ip.V4? then |ip.bytes| == 4 else |ip.bytes| == 16 }

  /** Textual addresses, as the standard library reads and prints them. */
  datatype IPLibrary = IPLibrary(parse: Bytes -> Option<IP>, format: Bytes -> Bytes)

  ghost predicate Sane(lib: IPLibrary) {
    && (forall host :: lib.parse(host).Some? ==> ValidIP(lib.parse(host).value))
    && (forall bytes :: |bytes| == 4 || |bytes| == 16 ==> lib.format(bytes) != [])
    && lib.parse([]).None?
  }

  datatype WireError =
    | ShortRead | BadVersion | BadAuthVersion | NoMethod | Rejected | BadCommand | BadAddressType | EmptyDestination
    | BadCredentials | HostTooLong | Downgraded | Refused(code: Byte)

  // ---------------------------------------------------------------------
  // Connections.

  /** One side of a connection: what is still to be read, and what was written. */
  class Conn {
    var input: Bytes
    var output: Bytes

    constructor (input: Bytes)
      ensures this.input == input && output == []
    {
      this.input, output := input, [];
    }

    /** Read exactly `n` bytes; a short stream is used up by the attempt. */
    method ReadFull(n: nat) returns (r: Option<Bytes>)
      modifies this`input
      ensures r == Took(old(input), n).0 && input == Took(old(input), n).1
    {
      if n <= |input| {
        r, input := Some(input[..n]), input[n..];
      } else {
        r, input := None, [];
      }
    }

    method Write(bytes: Bytes)
      modifies this`output
      ensures output == old(output) + bytes
    {
      output := output + bytes;
    }
  }

  /** Reading `n` bytes: the bytes, if there are that many, and what is left. */
  function Took(s: Bytes, n: nat): (Option<Bytes>, Bytes) {
    if n <= |s| then (Some(s[..n]), s[n..]) else (None, [])
  }

  /** What a part of the handshake results in, writes and leaves unread. */
  datatype Outcome<T> = Outcome(result: Result<T, WireError>, written: Bytes, rest: Bytes)

  function Fail<T>(e: WireError, written: Bytes, rest: Bytes): Outcome<T> { Outcome(Err(e), written, rest) }

  // ---------------------------------------------------------------------
  // Server: method selection and credentials.

  datatype Caller = Anonymous | Named(username: Bytes, password: Bytes)

  /** Username and password, each behind its length. */
  function UserPass(s: Bytes): Outcome<Caller> {
    match Took(s, 2)
    case (None, rest) => Fail(ShortRead, [], rest)
    case (Some(header), s1) =>
      if header[0] != AUTH_VERSION then Fail(BadAuthVersion, [], s1)
      else
        match Took(s1, header[1])
        case (None, rest) => Fail(ShortRead, [], rest)
        case (Some(username), s2) =>
          match Took(s2, 1)
          case (None, rest) => Fail(ShortRead, [], rest)
          case (Some(length), s3) =>
            match Took(s3, length[0])
            case (None, rest) => Fail(ShortRead, [], rest)
            case (Some(password), s4) => Outcome(Ok(Named(username, password)), [], s4)
  }

  /** The caller a stream announces, past authorization. */
  function Negotiated(authorize: Caller -> bool, s: Bytes): Outcome<Caller> {
    match Took(s, 2)
    case (None, rest) => Fail(ShortRead, [], rest)
    case (Some(header), s1) =>
      if header[0] != VERSION then Fail(BadVersion, [], s1)
      else
        match Took(s1, header[1])
        case (None, rest) => Fail(ShortRead, [], rest)
        case (Some(methods), s2) =>
          if USER_PASS in methods then
            match UserPass(s2)
            case Outcome(Err(e), _, rest) => Fail(e, [VERSION, USER_PASS], rest)
            case Outcome(Ok(caller), _, rest) =>
              if authorize(caller) then Outcome(Ok(caller), [VERSION, USER_PASS, AUTH_VERSION, 0], rest)
              else Fail(Rejected, [VERSION, USER_PASS, AUTH_VERSION, 1], rest)
          else if NO_AUTH in methods then
            if authorize(Anonymous) then Outcome(Ok(Anonymous), [VERSION, NO_AUTH], s2)
            else Fail(Rejected, [VERSION, NO_ACCEPTABLE], s2)
          else Fail(NoMethod, [VERSION, NO_ACCEPTABLE], s2)
  }

  method ReadUserPass(conn: Conn) returns (r: Result<Caller, WireError>)
    modifies conn`input
    ensures var o := UserPass(old(conn.input)); r == o.result && conn.input == o.rest
  {
    var header := conn.ReadFull(2);
    if header.None? { return Err(ShortRead); }
    if header.value[0] != AUTH_VERSION { return Err(BadAuthVersion); }
    var username := conn.ReadFull(header.value[1]);
    if username.None? { return Err(ShortRead); }
    var length := conn.ReadFull(1);
    if length.None? { return Err(ShortRead); }
    var password := conn.ReadFull(length.value[0]);
    if password.None? { return Err(ShortRead); }
    return Ok(Named(username.value, password.value));
  }

  method ServerNegotiate(conn: Conn, authorize: Caller -> bool) returns (r: Result<Caller, WireError>)
    modifies conn
    ensures var o := Negotiated(authorize, old(conn.input));
            r == o.result && conn.output == old(conn.output) + o.written && conn.input == o.rest
  {
    var header := conn.ReadFull(2);
    if header.None? { return Err(ShortRead); }
    if header.value[0] != VERSION { return Err(BadVersion); }
    var methods := conn.ReadFull(header.value[1]);
    if methods.None? { return Err(ShortRead); }
    var offersUserPass, offersNoAuth := false, false;
    for i := 0 to |methods.value|
      invariant offersUserPass <==> USER_PASS in methods.value[..i]
      invariant offersNoAuth <==> NO_AUTH in methods.value[..i]
    {
      if methods.value[i] == USER_PASS {
        offersUserPass := true;
      } else if methods.value[i] == NO_AUTH {
        offersNoAuth := true;
      }
    }
    assert methods.value[..|methods.value|] == methods.value;
    if offersUserPass {
      conn.Write([VERSION, USER_PASS]);
      var caller := ReadUserPass(conn);
      if caller.Err? { return caller; }
      if !authorize(caller.value) {
        conn.Write([AUTH_VERSION, 1]);
        return Err(Rejected);
      }
      conn.Write([AUTH_VERSION, 0]);
      return caller;
    } else if offersNoAuth {
      if !authorize(Anonymous) {
        conn.Write([VERSION, NO_ACCEPTABLE]);
        return Err(Rejected);
      }
      conn.Write([VERSION, NO_AUTH]);
      return Ok(Anonymous);
    } else {
      conn.Write([VERSION, NO_ACCEPTABLE]);
      return Err(NoMethod);
    }
  }

  // ---------------------------------------------------------------------
  // Server: the request and the reply.

  datatype Destination = Destination(host: Bytes, port: nat)

  function PortBytes(port: nat): Bytes { [port / 256 % 256, port % 256] }

  /** A reply with the bound address, or zeros when there is none. */
  function Reply(code: Byte, bound: Option<(IP, nat)>): Bytes {
    match bound
    case Some((V4(bytes), port)) => [VERSION, code, 0, IPV4] + bytes + PortBytes(port)
    case Some((V6(bytes), port)) => [VERSION, code, 0, IPV6] + bytes + PortBytes(port)
    case None => [VERSION, code, 0, IPV4, 0, 0, 0, 0, 0, 0]
  }

  /** The port that follows a host. */
  function PortAfter(host: Bytes, s: Bytes): Outcome<Destination> {
    match Took(s, 2)
    case (None, rest) => Fail(ShortRead, [], rest)
    case (Some(p), rest) =>
      var port := 256 * Value(p[0]) + Value(p[1]);
      if host == [] || port == 0 then Fail(EmptyDestination, [], rest)
          else Outcome(Ok(Destination(host, port)), [], rest)
  }

  function Request(lib: IPLibrary, s: Bytes): Outcome<Destination> {
    match Took(s, 4)
    case (None, rest) => Fail(ShortRead, [], rest)
    case (Some(header), s1) =>
      if header[0] != VERSION then Fail(BadVersion, [], s1)
      else if header[1] != CONNECT then Fail(BadCommand, Reply(COMMAND_NOT_SUPPORTED, None), s1)
      else if header[3] == IPV4 then
        match Took(s1, 4)
        case (None, rest) => Fail(ShortRead, [], rest)
        case (Some(ip), s2) => PortAfter(lib.format(ip), s2)
      else if header[3] == IPV6 then
        match Took(s1, 16)
        case (None, rest) => Fail(ShortRead, [], rest)
        case (Some(ip), s2) => PortAfter(lib.format(ip), s2)
      else if header[3] == DOMAIN then
        match Took(s1, 1)
        case (None, rest) => Fail(ShortRead, [], rest)
        case (Some(length), s2) =>
          match Took(s2, length[0])
          case (None, rest) => Fail(ShortRead, [], rest)
          case (Some(name), s3) => PortAfter(name, s3)
      else Fail(BadAddressType, Reply(ADDRESS_NOT_SUPPORTED, None), s1)
  }

  method WriteReply(conn: Conn, code: Byte, bound: Option<(IP, nat)>)
    requires bound.Some? ==> ValidIP(bound.value.0)
    modifies conn`output
    ensures conn.output == old(conn.output) + Reply(code, bound)
  {
    var reply: Bytes := [VERSION, code, 0, IPV4, 0, 0, 0, 0, 0, 0];
    if bound.Some? {
      var (ip, port) := bound.value;
      match ip {
        case V4(bytes) => reply := reply[..4] + bytes + PortBytes(port);
        case V6(bytes) => reply := [VERSION, code, 0, IPV6] + bytes + PortBytes(port);
      }
    }
    conn.Write(reply);
  }

  method ReadRequest(conn: Conn, lib: IPLibrary) returns (r: Result<Destination, WireError>)
    modifies conn
    ensures var o := Request(lib, old(conn.input));
            r == o.result && conn.output == old(conn.output) + o.written && conn.input == o.rest
  {
    var header := conn.ReadFull(4);
    if header.None? { return Err(ShortRead); }
    if header.value[0] != VERSION { return Err(BadVersion); }
    if header.value[1] != CONNECT {
      WriteReply(conn, COMMAND_NOT_SUPPORTED, None);
      return Err(BadCommand);
    }
    var host: Bytes;
    if header.value[3] == IPV4 {
      var ip := conn.ReadFull(4);
      if ip.None? { return Err(ShortRead); }
      host := lib.format(ip.value);
    } else if header.value[3] == IPV6 {
      var ip := conn.ReadFull(16);
      if ip.None? { return Err(ShortRead); }
      host := lib.format(ip.value);
    } else if header.value[3] == DOMAIN {
      var length := conn.ReadFull(1);
      if length.None? { return Err(ShortRead); }
      var name := conn.ReadFull(length.value[0]);
      if name.None? { return Err(ShortRead); }
      host := name.value;
    } else {
      WriteReply(conn, ADDRESS_NOT_SUPPORTED, None);
      return Err(BadAddressType);
    }
    var portBytes := conn.ReadFull(2);
    if portBytes.None? { return Err(ShortRead); }
    var port := 256 * Value(portBytes.value[0]) + Value(portBytes.value[1]);
    if host == [] || port == 0 { return Err(EmptyDestination); }
    return Ok(Destination(host, port));
  }

  // ---------------------------------------------------------------------
  // Client.

  predicate HasCredentials(username: Bytes, password: Bytes) { username != [] || password != [] }

  predicate SendableCredentials(username: Bytes, password: Bytes) {
    HasCredentials(username, password) ==> 1 <= |username| <= 255 && 1 <= |password| <= 255
  }

  function Greeting(username: Bytes, password: Bytes): Bytes {
    [VERSION, 1, if HasCredentials(username, password) then USER_PASS else NO_AUTH]
  }

  function Auth(username: Bytes, password: Bytes): Bytes
    requires |username| <= 255 && |password| <= 255
  {
    [AUTH_VERSION, |username|] + username + [|password|] + password
  }

  function Connect(lib: IPLibrary, host: Bytes, port: nat): Option<Bytes> {
    match lib.parse(host)
    case Some(V4(bytes)) => Some([VERSION, CONNECT, 0, IPV4] + bytes + PortBytes(port))
    case Some(V6(bytes)) => Some([VERSION, CONNECT, 0, IPV6] + bytes + PortBytes(port))
    case None => if |host| > 255 then None else Some([VERSION, CONNECT, 0, DOMAIN, |host|] + host + PortBytes(port))
  }

  /** Skip the bound address of a reply. */
  function Skip(s: Bytes, n: nat): Outcome<()> {
    match Took(s, n)
    case (None, rest) => Fail(ShortRead, [], rest)
    case (Some(_), rest) => Outcome(Ok(()), [], rest)
  }

  /** One reply of the proxy. */
  function ConnectReply(s: Bytes): Outcome<()> {
    match Took(s, 4)
    case (None, rest) => Fail(ShortRead, [], rest)
    case (Some(header), s1) =>
      if header[0] != VERSION then Fail(BadVersion, [], s1)
      else if header[1] != SUCCESS then Fail(Refused(header[1]), [], s1)
      else if header[3] == IPV4 then Skip(s1, 6)
      else if header[3] == IPV6 then Skip(s1, 18)
      else if header[3] == DOMAIN then
        match Took(s1, 1)
        case (None, rest) => Fail(ShortRead, [], rest)
        case (Some(length), s2) => Skip(s2, Value(length[0]) + 2)
      else Fail(BadAddressType, [], s1)
  }

  /** The request and its reply, once the proxy let the client in. */
  function Requested(lib: IPLibrary, host: Bytes, port: nat, sent: Bytes, s: Bytes): Outcome<()> {
    match Connect(lib, host, port)
    case None => Fail(HostTooLong, sent, s)
    case Some(request) =>
      var o := ConnectReply(s);
      Outcome(o.result, sent + request, o.rest)
  }

  /** The whole client side over the bytes the proxy answers. */
  function Dialed(lib: IPLibrary, username: Bytes, password: Bytes, host: Bytes, port: nat, s: Bytes): Outcome<()> {
    if !SendableCredentials(username, password) then Fail(BadCredentials, [], s)
    else
      var greeting := Greeting(username, password);
      match Took(s, 2)
      case (None, rest) => Fail(ShortRead, greeting, rest)
      case (Some(reply), s1) =>
        if reply[0] != VERSION then Fail(BadVersion, greeting, s1)
        else if reply[1] == USER_PASS && username != [] && password != [] then
          var sent := greeting + Auth(username, password);
          match Took(s1, 2)
          case (None, rest) => Fail(ShortRead, sent, rest)
          case (Some(answer), s2) =>
            if answer[0] != AUTH_VERSION || answer[1] != 0 then Fail(Rejected, sent, s2)
            else Requested(lib, host, port, sent, s2)
        else if reply[1] != NO_AUTH then Fail(NoMethod, greeting, s1)
        else if HasCredentials(username, password) then Fail(Downgraded, greeting, s1)
        else Requested(lib, host, port, greeting, s1)
  }

  method BuildConnect(lib: IPLibrary, host: Bytes, port: nat) returns (r: Option<Bytes>)
    ensures r == Connect(lib, host, port)
  {
    var request: Bytes := [VERSION, CONNECT, 0];
    match lib.parse(host) {
      case Some(V4(bytes)) =>
        request := request + [IPV4];
        assert request == [VERSION, CONNECT, 0, IPV4];
        request := request + bytes;
      case Some(V6(bytes)) =>
        request := request + [IPV6];
        assert request == [VERSION, CONNECT, 0, IPV6];
        request := request + bytes;
      case None =>
        if |host| > 255 { return None; }
        request := request + [DOMAIN, |host|];
        assert request == [VERSION, CONNECT, 0, DOMAIN, |host|];
        request := request + host;
    }
    return Some(request + PortBytes(port));
  }

  method ReadConnectReply(conn: Conn) returns (r: Result<(), WireError>)
    modifies conn`input
    ensures var o := ConnectReply(old(conn.input)); r == o.result && conn.input == o.rest
  {
    var header := conn.ReadFull(4);
    if header.None? { return Err(ShortRead); }
    if header.value[0] != VERSION { return Err(BadVersion); }
    if header.value[1] != SUCCESS { return Err(Refused(header.value[1])); }
    var skipped: Option<Bytes>;
    if header.value[3] == IPV4 {
      skipped := conn.ReadFull(6);
    } else if header.value[3] == IPV6 {
      skipped := conn.ReadFull(18);
    } else if header.value[3] == DOMAIN {
      var length := conn.ReadFull(1);
      if length.None? { return Err(ShortRead); }
      skipped := conn.ReadFull(Value(length.value[0]) + 2);
    } else {
      return Err(BadAddressType);
    }
    return if skipped.None? then Err(ShortRead) else Ok(());
  }

  /** Send the request and read its reply. */
  method ClientRequest(conn: Conn, lib: IPLibrary, host: Bytes, port: nat) returns (r: Result<(), WireError>)
    modifies conn
    ensures var o := Requested(lib, host, port, [], old(conn.input));
            r == o.result && conn.output == old(conn.output) + o.written && conn.input == o.rest
  {
    hide Connect;
    hide ConnectReply;
    var request := BuildConnect(lib, host, port);
    if request.None? { return Err(HostTooLong); }
    conn.Write(request.value);
    assert [] + request.value == request.value;
    r := ReadConnectReply(conn);
  }

  /** Send the credentials and read the answer. */
  method ClientAuthenticate(conn: Conn, username: Bytes, password: Bytes) returns (r: Result<(), WireError>)
    requires |username| <= 255 && |password| <= 255
    modifies conn
    ensures conn.output == old(conn.output) + Auth(username, password)
    ensures match Took(old(conn.input), 2)
            case (None, rest) => r == Err(ShortRead) && conn.input == rest
            case (Some(answer), rest) =>
              r == (if answer[0] != AUTH_VERSION || answer[1] != 0 then Err(Rejected) else Ok(())) && conn.input == rest
  {
    var auth: Bytes := [AUTH_VERSION, |username|];
    auth := auth + username;
    auth := auth + [|password|];
    auth := auth + password;
    conn.Write(auth);
    var answer := conn.ReadFull(2);
    if answer.None? { return Err(ShortRead); }
    if answer.value[0] != AUTH_VERSION || answer.value[1] != 0 { return Err(Rejected); }
    return Ok(());
  }

  lemma RequestedAfter(lib: IPLibrary, host: Bytes, port: nat, sent: Bytes, s: Bytes)
    ensures var o, p := Requested(lib, host, port, sent, s), Requested(lib, host, port, [], s);
            o.result == p.result && o.written == sent + p.written && o.rest == p.rest
  {
    hide ConnectReply;
    hide Connect;
    if Connect(lib, host, port).None? {
      assert sent + [] == sent;
    } else {
      assert [] + Connect(lib, host, port).value == Connect(lib, host, port).value;
    }
  }

  method ClientNegotiate(conn: Conn, lib: IPLibrary, username: Bytes, password: Bytes, host: Bytes, port: nat)
    returns (r: Result<(), WireError>)
    modifies conn
    ensures var o := Dialed(lib, username, password, host, port, old(conn.input));
            r == o.result && conn.output == old(conn.output) + o.written && conn.input == o.rest
  {
    hide Requested;
    ghost var start := conn.output;
    var methods: Bytes := [NO_AUTH];
    if username != [] || password != [] {
      if |username| > 255 || |password| > 255 || username == [] || password == [] {
        return Err(BadCredentials);
      }
      methods := [USER_PASS];
    }
    ghost var greeting := Greeting(username, password);
    conn.Write([VERSION, |methods|] + methods);
    assert conn.output == start + greeting;
    var reply := conn.ReadFull(2);
    if reply.None? { return Err(ShortRead); }
    if reply.value[0] != VERSION { return Err(BadVersion); }
    if reply.value[1] == USER_PASS && username != [] && password != [] {
      ghost var sent := greeting + Auth(username, password);
      r := ClientAuthenticate(conn, username, password);
      assert conn.output == start + sent;
      if r.Err? { return; }
      RequestedAfter(lib, host, port, sent, conn.input);
      r := ClientRequest(conn, lib, host, port);
      return;
    }
    if reply.value[1] != NO_AUTH { return Err(NoMethod); }
    if username != [] || password != [] { return Err(Downgraded); }
    RequestedAfter(lib, host, port, greeting, conn.input);
    r := ClientRequest(conn, lib, host, port);
  }

  // ---------------------------------------------------------------------
  // The two sides agree.

  lemma TookAll(a: Bytes, tail: Bytes)
    ensures Took(a + tail, |a|) == (Some(a), tail)
  {
    assert (a + tail)[..|a|] == a && (a + tail)[|a|..] == tail;
  }

  /** Credentials are read back exactly, and nothing after them is touched. */
  lemma AuthReadsBack(username: Bytes, password: Bytes, tail: Bytes)
    requires |username| <= 255 && |password| <= 255
    ensures UserPass(Auth(username, password) + tail) == Outcome(Ok(Named(username, password)), [], tail)
  {
    var header: Bytes, length: Bytes := [AUTH_VERSION, |username|], [|password|];
    assert Auth(username, password) + tail == header + (username + (length + (password + tail)));
    TookAll(header, username + (length + (password + tail)));
    TookAll(username, length + (password + tail));
    TookAll(length, password + tail);
    TookAll(password, tail);
    hide Took;
  }

  lemma PortReadsBack(host: Bytes, port: nat, tail: Bytes)
    requires 1 <= port <= 65535
    ensures PortAfter(host, PortBytes(port) + tail)
            == if host == [] then Fail(EmptyDestination, [], tail) else Outcome(Ok(Destination(host, port)), [], tail)
  {
    TookAll(PortBytes(port), tail);
    hide Took;
  }

  /** The host the server sees: an address literal in its canonical text, any other name
      as it is. */
  function SeenAs(lib: IPLibrary, host: Bytes): Bytes {
    match lib.parse(host)
    case Some(ip) => lib.format(ip.bytes)
    case None => host
  }

  /** The request is read back exactly, and nothing after it is touched. */
  lemma RequestReadsBack(lib: IPLibrary, host: Bytes, port: nat, tail: Bytes)
    requires Sane(lib) && 1 <= port <= 65535 && Connect(lib, host, port).Some?
    ensures Request(lib, Connect(lib, host, port).value + tail)
            == if host == [] then Fail(EmptyDestination, [], tail)
               else Outcome(Ok(Destination(SeenAs(lib, host), port)), [], tail)
  {
    hide PortAfter;
    PortReadsBack(SeenAs(lib, host), port, tail);
    if lib.parse(host).Some? {
      LiteralReadsBack(lib, host, port, tail);
    } else {
      NameReadsBack(lib, host, port, tail);
    }
    hide Request;
  }

  lemma LiteralReadsBack(lib: IPLibrary, host: Bytes, port: nat, tail: Bytes)
    requires Sane(lib) && lib.parse(host).Some?
    ensures Request(lib, Connect(lib, host, port).value + tail) == PortAfter(SeenAs(lib, host), PortBytes(port) + tail)
  {
    hide Took;
    hide PortAfter;
    hide PortBytes;
    var ip, p := lib.parse(host).value, PortBytes(port);
    var header: Bytes := [VERSION, CONNECT, 0, if ip.V4? then IPV4 else IPV6];
    assert Connect(lib, host, port).value + tail == header + (ip.bytes + (p + tail));
    TookAll(header, ip.bytes + (p + tail));
    TookAll(ip.bytes, p + tail);
  }

  lemma NameReadsBack(lib: IPLibrary, host: Bytes, port: nat, tail: Bytes)
    requires lib.parse(host).None? && |host| <= 255
    ensures Request(lib, Connect(lib, host, port).value + tail) == PortAfter(host, PortBytes(port) + tail)
  {
    hide Took;
    hide PortAfter;
    hide PortBytes;
    var p := PortBytes(port);
    var header: Bytes, length: Bytes := [VERSION, CONNECT, 0, DOMAIN], [|host|];
    assert Connect(lib, host, port).value + tail == header + (length + (host + (p + tail)));
    TookAll(header, length + (host + (p + tail)));
    TookAll(length, host + (p + tail));
    TookAll(host, p + tail);
  }

  /** A successful reply is consumed exactly; any other reports its code. */
  lemma ReplyReadsBack(code: Byte, bound: Option<(IP, nat)>, tail: Bytes)
    requires bound.Some? ==> ValidIP(bound.value.0)
    ensures code == SUCCESS ==> ConnectReply(Reply(code, bound) + tail) == Outcome(Ok(()), [], tail)
    ensures code != SUCCESS ==> ConnectReply(Reply(code, bound) + tail).result == Err(Refused(code))
  {
    var v6 := bound.Some? && bound.value.0.V6?;
    var header: Bytes := [VERSION, code, 0, if v6 then IPV6 else IPV4];
    var address: Bytes := if bound.Some? then bound.value.0.bytes + PortBytes(bound.value.1) else [0, 0, 0, 0, 0, 0];
    assert Reply(code, bound) + tail == header + (address + tail);
    TookAll(header, address + tail);
    TookAll(address, tail);
    hide Took;
  }

  /** The bytes a client sends when the proxy lets it in. */
  function ClientBytes(lib: IPLibrary, username: Bytes, password: Bytes, host: Bytes, port: nat): Bytes
    requires SendableCredentials(username, password) && Connect(lib, host, port).Some?
  {
    Greeting(username, password)
    + (if HasCredentials(username, password) then Auth(username, password) else [])
    + Connect(lib, host, port).value
  }

  function CallerOf(username: Bytes, password: Bytes): Caller {
    if HasCredentials(username, password) then Named(username, password) else Anonymous
  }

  /** The bytes an accepting server sends before its reply. */
  function WelcomeBytes(username: Bytes, password: Bytes): Bytes {
    if HasCredentials(username, password) then [VERSION, USER_PASS, AUTH_VERSION, 0] else [VERSION, NO_AUTH]
  }

  lemma GreetingReadsBack(authorize: Caller -> bool, username: Bytes, password: Bytes, s: Bytes)
    ensures HasCredentials(username, password) ==>
              Negotiated(authorize, Greeting(username, password) + s)
              == match UserPass(s)
                 case Outcome(Err(e), _, rest) => Fail(e, [VERSION, USER_PASS], rest)
                 case Outcome(Ok(caller), _, rest) =>
                   if authorize(caller) then Outcome(Ok(caller), [VERSION, USER_PASS, AUTH_VERSION, 0], rest)
                   else Fail(Rejected, [VERSION, USER_PASS, AUTH_VERSION, 1], rest)
    ensures !HasCredentials(username, password) ==>
              Negotiated(authorize, Greeting(username, password) + s)
              == if authorize(Anonymous) then Outcome(Ok(Anonymous), [VERSION, NO_AUTH], s)
                 else Fail(Rejected, [VERSION, NO_ACCEPTABLE], s)
  {
    var header: Bytes := [VERSION, 1];
    var methods: Bytes := [if HasCredentials(username, password) then USER_PASS else NO_AUTH];
    assert Greeting(username, password) + s == header + (methods + s);
    TookAll(header, methods + s);
    TookAll(methods, s);
    hide Took;
    hide UserPass;
  }

  /** Everything the client says reaches the server unchanged: after the greeting and
      the credentials it knows the caller, after the request it knows the destination,
      and the bytes that follow are left for the relay. */
  lemma ServerUnderstandsClient(lib: IPLibrary, authorize: Caller -> bool, username: Bytes, password: Bytes,
                                host: Bytes, port: nat, tail: Bytes)
    requires Sane(lib) && SendableCredentials(username, password) && Connect(lib, host, port).Some?
    requires host != [] && 1 <= port <= 65535
    ensures var caller := CallerOf(username, password);
            var n := Negotiated(authorize, ClientBytes(lib, username, password, host, port) + tail);
            if !authorize(caller) then n.result == Err(Rejected)
            else
              && n.result == Ok(caller) && n.written == WelcomeBytes(username, password)
              && Request(lib, n.rest) == Outcome(Ok(Destination(SeenAs(lib, host), port)), [], tail)
  {
    hide Request;
    hide Connect;
    hide Negotiated;
    hide UserPass;
    hide Auth;
    hide Greeting;
    hide SeenAs;
    var request := Connect(lib, host, port).value;
    RequestReadsBack(lib, host, port, tail);
    if HasCredentials(username, password) {
      AuthReadsBack(username, password, request + tail);
      assert ClientBytes(lib, username, password, host, port) + tail
             == Greeting(username, password) + (Auth(username, password) + (request + tail));
      GreetingReadsBack(authorize, username, password, Auth(username, password) + (request + tail));
    } else {
      assert ClientBytes(lib, username, password, host, port) + tail == Greeting(username, password) + (request + tail);
      GreetingReadsBack(authorize, username, password, request + tail);
    }
  }

  /** Reading the welcome takes the client to its request. */
  lemma WelcomeReadsBack(lib: IPLibrary, username: Bytes, password: Bytes, host: Bytes, port: nat, s: Bytes)
    requires SendableCredentials(username, password)
    ensures Dialed(lib, username, password, host, port, WelcomeBytes(username, password) + s)
            == Requested(lib, host, port,
                         Greeting(username, password) + (if HasCredentials(username, password)
                             then Auth(username, password) else []), s)
  {
    hide Took;
    hide Requested;
    hide Auth;
    var first: Bytes, second: Bytes := [VERSION, if HasCredentials(username, password) then USER_PASS else NO_AUTH],
        [AUTH_VERSION, 0];
    if HasCredentials(username, password) {
      assert WelcomeBytes(username, password) + s == first + (second + s);
      TookAll(first, second + s);
      TookAll(second, s);
    } else {
      assert WelcomeBytes(username, password) + s == first + s;
      TookAll(first, s);
      assert Greeting(username, password) + [] == Greeting(username, password);
    }
  }

  /** Everything the server says is understood by the client: it succeeds exactly on a
      successful reply and leaves the payload that follows. */
  lemma ClientUnderstandsServer(lib: IPLibrary, username: Bytes, password: Bytes, host: Bytes, port: nat,
                                code: Byte, bound: Option<(IP, nat)>, payload: Bytes)
    requires SendableCredentials(username, password) && Connect(lib, host, port).Some?
    requires bound.Some? ==> ValidIP(bound.value.0)
    ensures var d := Dialed(lib, username, password, host, port, WelcomeBytes(username, password) + Reply(code, bound)
            + payload);
            && d.written == ClientBytes(lib, username, password, host, port)
            && (code == SUCCESS ==> d.result == Ok(()) && d.rest == payload)
            && (code != SUCCESS ==> d.result == Err(Refused(code)))
  {
    hide Dialed;
    hide Auth;
    hide ConnectReply;
    hide Connect;
    hide Reply;
    hide Greeting;
    hide WelcomeBytes;
    ReplyReadsBack(code, bound, payload);
    WelcomeReadsBack(lib, username, password, host, port, Reply(code, bound) + payload);
    assert WelcomeBytes(username, password) + Reply(code, bound) + payload
           == WelcomeBytes(username, password) + (Reply(code, bound) + payload);
  }

  lemma NamedRejection(authorize: Caller -> bool, username: Bytes, password: Bytes)
    requires SendableCredentials(username, password) && HasCredentials(username, password)
             && !authorize(Named(username, password))
    ensures Negotiated(authorize, Greeting(username, password) + Auth(username, password))
            == Fail(Rejected, [VERSION, USER_PASS, AUTH_VERSION, 1], [])
  {
    hide Negotiated;
    hide UserPass;
    hide Auth;
    AuthReadsBack(username, password, []);
    assert Auth(username, password) + [] == Auth(username, password);
    GreetingReadsBack(authorize, username, password, Auth(username, password));
  }

  lemma NamedClientStops(lib: IPLibrary, username: Bytes, password: Bytes, host: Bytes, port: nat, payload: Bytes)
    requires SendableCredentials(username, password) && HasCredentials(username, password)
    ensures Dialed(lib, username, password, host, port, [VERSION, USER_PASS, AUTH_VERSION, 1] + payload)
            == Fail(Rejected, Greeting(username, password) + Auth(username, password), payload)
  {
    var first: Bytes, second: Bytes := [VERSION, USER_PASS], [AUTH_VERSION, 1];
    assert [VERSION, USER_PASS, AUTH_VERSION, 1] + payload == first + (second + payload);
    TookAll(first, second + payload);
    TookAll(second, payload);
    hide Took;
    hide Requested;
    hide Auth;
    hide Greeting;
  }

  lemma AnonymousRejection(lib: IPLibrary, authorize: Caller -> bool, host: Bytes, port: nat, payload: Bytes)
    requires !authorize(Anonymous)
    ensures Negotiated(authorize, Greeting([], [])) == Fail(Rejected, [VERSION, NO_ACCEPTABLE], [])
    ensures Dialed(lib, [], [], host, port, [VERSION, NO_ACCEPTABLE] + payload)
            == Fail(NoMethod, Greeting([], []), payload)
  {
    assert Greeting([], []) + [] == Greeting([], []);
    GreetingReadsBack(authorize, [], [], []);
    TookAll([VERSION, NO_ACCEPTABLE], payload);
    hide Took;
    hide Requested;
    hide Negotiated;
  }

  /** A client whose credentials the server rejects never sends its destination. */
  lemma RejectedClientStops(lib: IPLibrary, authorize: Caller -> bool, username: Bytes, password: Bytes, host: Bytes,
                            port: nat, payload: Bytes)
    requires SendableCredentials(username, password) && !authorize(CallerOf(username, password))
    ensures var sent := if HasCredentials(username, password)
            then Greeting(username, password) + Auth(username, password)
                        else Greeting(username, password);
            var n := Negotiated(authorize, sent);
            var d := Dialed(lib, username, password, host, port, n.written + payload);
            n.result == Err(Rejected) && d.result.Err? && d.written == sent && d.rest == payload
  {
    hide Negotiated;
    hide Dialed;
    hide Auth;
    hide Greeting;
    if HasCredentials(username, password) {
      NamedRejection(authorize, username, password);
      NamedClientStops(lib, username, password, host, port, payload);
    } else {
      AnonymousRejection(lib, authorize, host, port, payload);
    }
  }
}
