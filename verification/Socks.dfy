/**
 The server side of the SOCKS5 handshake: method negotiation as in section 3 of RFC 1928 and
 the request as in section 4. The client's stream is what it will ever send; reading past its
 end consumes the rest and fails.
 */
module Socks {
  import opened Common
  import opened TunnelData

  const VERSION: Byte := 5
  const NO_AUTH_REQUIRED: Byte := 0
  const NO_ACCEPTABLE_METHOD: Byte := 255
  const CONNECT: Byte := 1
  const COMMAND_NOT_SUPPORTED: Byte := 7

  newtype Port = n: int | 0 <= n < 0x1_0000

  datatype SocksError =
    | EndOfStream
    | UnsupportedVersion
    | UnsupportedAuth
    | UnsupportedAddress
    | UnsupportedCommand
    | WriteFailed

  datatype Destination = IPv4(octets: Bytes) | DomainName(octets: Bytes) | IPv6(octets: Bytes)

  /** How an address is written as a host; only a name is taken as it is. */
  type AddressText = Bytes -> Bytes

  datatype Target = Target(host: Bytes, port: Port)

  predicate WellFormed(d: Destination) {
    match d
    case IPv4(octets) => |octets| == 4
    case IPv6(octets) => |octets| == 16
    case DomainName(octets) => |octets| <= 255
  }

  function HostOf(d: Destination, text: AddressText): Bytes {
    if d.DomainName? then d.octets else text(d.octets)
  }

  // What a client sends.

  function Greeting(methods: Bytes): Bytes
    requires |methods| <= 255
  {
    [VERSION, |methods| as Byte] + methods
  }

  function EncodePort(port: Port): Bytes {
    [(port / 256) as Byte, (port % 256) as Byte]
  }

  function EncodeAddress(d: Destination): Bytes
    requires WellFormed(d)
  {
    if d.DomainName? then [|d.octets| as Byte] + d.octets else d.octets
  }

  function AddressType(d: Destination): Byte {
    match d case IPv4(_) => 1 case DomainName(_) => 3 case IPv6(_) => 4
  }

  function EncodeRequest(command: Byte, reserved: Byte, d: Destination, port: Port): Bytes
    requires WellFormed(d)
  {
    [VERSION, command, reserved, AddressType(d)] + EncodeAddress(d) + EncodePort(port)
  }

  function EncodeReply(code: Byte): Bytes {
    [VERSION, code, 0, 1, 0, 0, 0, 0, 0, 0]
  }

  // What the server makes of it.

  /** An outcome, what is left of the stream, and what is sent back. */
  datatype Reading<+T> = Reading(result: Result<T, SocksError>, rest: Bytes, reply: Bytes)

  /** The next n bytes; a stream that ends before is used up. */
  function Take(input: Bytes, n: nat): (r: Reading<Bytes>)
    ensures r.result.Ok? <==> |input| >= n
    ensures r.result.Ok? ==> |r.result.value| == n && r.result.value + r.rest == input
    ensures r.result.Err? ==> r.result.error == EndOfStream && r.rest == []
  {
    if |input| < n then Reading(Err(EndOfStream), [], []) else Reading(Ok(input[..n]), input[n..], [])
  }

  function Negotiate(input: Bytes): Reading<()> {
    var header := Take(input, 2);
    if header.result.Err? then Reading(Err(header.result.error), header.rest, [])
    else if header.result.value[0] != VERSION then Reading(Err(UnsupportedVersion), header.rest, [])
    else
      var methods := Take(header.rest, header.result.value[1] as nat);
      if methods.result.Err? then Reading(Err(methods.result.error), methods.rest, [])
      else if NO_AUTH_REQUIRED in methods.result.value then Reading(Ok(()), methods.rest, [VERSION, NO_AUTH_REQUIRED])
      else Reading(Err(UnsupportedAuth), methods.rest, [VERSION, NO_ACCEPTABLE_METHOD])
  }

  function ReadAddress(input: Bytes, addressType: Byte): (r: Reading<Destination>)
    ensures r.result.Ok? ==> WellFormed(r.result.value) && AddressType(r.result.value) == addressType
  {
    if addressType == 1 then
      var octets := Take(input, 4);
      if octets.result.Err? then Reading(Err(octets.result.error), octets.rest, [])
      else Reading(Ok(IPv4(octets.result.value)), octets.rest, [])
    else if addressType == 4 then
      var octets := Take(input, 16);
      if octets.result.Err? then Reading(Err(octets.result.error), octets.rest, [])
      else Reading(Ok(IPv6(octets.result.value)), octets.rest, [])
    else if addressType == 3 then
      var length := Take(input, 1);
      if length.result.Err? then Reading(Err(length.result.error), length.rest, [])
      else
        var octets := Take(length.rest, length.result.value[0] as nat);
        if octets.result.Err? then Reading(Err(octets.result.error), octets.rest, [])
        else Reading(Ok(DomainName(octets.result.value)), octets.rest, [])
    else Reading(Err(UnsupportedAddress), input, [])
  }

  function DecodePort(bytes: Bytes): Port
    requires |bytes| == 2
  {
    bytes[0] as Port * 256 + bytes[1] as Port
  }

  datatype Endpoint = Endpoint(destination: Destination, port: Port)

  function ReadEndpoint(input: Bytes, addressType: Byte): (r: Reading<Endpoint>)
    ensures r.result.Ok? ==>
              WellFormed(r.result.value.destination) && AddressType(r.result.value.destination) == addressType
    ensures r.reply == []
  {
    var address := ReadAddress(input, addressType);
    if address.result.Err? then Reading(Err(address.result.error), address.rest, [])
    else
      var port := Take(address.rest, 2);
      if port.result.Err? then Reading(Err(port.result.error), port.rest, [])
      else Reading(Ok(Endpoint(address.result.value, DecodePort(port.result.value))), port.rest, [])
  }

  /** The command is looked at last, when the whole request has been read. */
  function ReadRequest(input: Bytes, text: AddressText): Reading<Target> {
    var header := Take(input, 4);
    if header.result.Err? then Reading(Err(header.result.error), header.rest, [])
    else if header.result.value[0] != VERSION then Reading(Err(UnsupportedVersion), header.rest, [])
    else
      var endpoint := ReadEndpoint(header.rest, header.result.value[3]);
      if endpoint.result.Err? then Reading(Err(endpoint.result.error), endpoint.rest, [])
      else if header.result.value[1] != CONNECT
      then Reading(Err(UnsupportedCommand), endpoint.rest, EncodeReply(COMMAND_NOT_SUPPORTED))
      else Reading(Ok(Target(HostOf(endpoint.result.value.destination, text), endpoint.result.value.port)),
          endpoint.rest, [])
  }

  lemma TakeExactly(bytes: Bytes, rest: Bytes)
    ensures Take(bytes + rest, |bytes|) == Reading(Ok(bytes), rest, [])
  {
  }

  /**
   A well-formed greeting is read to its last byte and not further, and accepted exactly if it
   offers no authentication.
   */
  lemma GreetingIsRead(methods: Bytes, rest: Bytes)
    requires |methods| <= 255
    ensures Negotiate(Greeting(methods) + rest) ==
            if NO_AUTH_REQUIRED in methods then Reading(Ok(()), rest, [VERSION, NO_AUTH_REQUIRED])
            else Reading(Err(UnsupportedAuth), rest, [VERSION, NO_ACCEPTABLE_METHOD])
  {
    var header := [VERSION, |methods| as Byte];
    assert Greeting(methods) + rest == header + (methods + rest);
    TakeExactly(header, methods + rest);
    TakeExactly(methods, rest);
  }

  /** Nothing else is accepted. */
  lemma OnlyGreetingsAreAccepted(input: Bytes) returns (methods: Bytes)
    requires Negotiate(input).result.Ok?
    ensures |methods| <= 255 && NO_AUTH_REQUIRED in methods && input == Greeting(methods) + Negotiate(input).rest
  {
    var header := Take(input, 2);
    methods := Take(header.rest, header.result.value[1] as nat).result.value;
    assert header.result.value == [VERSION, |methods| as Byte];
  }

  lemma AddressIsRead(d: Destination, rest: Bytes)
    requires WellFormed(d)
    ensures ReadAddress(EncodeAddress(d) + rest, AddressType(d)) == Reading(Ok(d), rest, [])
  {
    if d.DomainName? {
      var length := [|d.octets| as Byte];
      assert EncodeAddress(d) + rest == length + (d.octets + rest);
      TakeExactly(length, d.octets + rest);
    }
    TakeExactly(d.octets, rest);
  }

  lemma OnlyAddressesAreRead(input: Bytes, addressType: Byte)
    requires ReadAddress(input, addressType).result.Ok?
    ensures input == EncodeAddress(ReadAddress(input, addressType).result.value) + ReadAddress(input, addressType).rest
  {
    if addressType == 3 {
      var length := Take(input, 1);
      var octets := Take(length.rest, length.result.value[0] as nat);
      assert length.result.value == [|octets.result.value| as Byte];
    }
  }

  lemma PortRoundTrip(port: Port, bytes: Bytes)
    requires |bytes| == 2
    ensures DecodePort(EncodePort(port)) == port && EncodePort(DecodePort(bytes)) == bytes
  {
  }

  lemma PortLayout(port: Port)
    ensures BigEndian(EncodePort(port)) == port as nat
  {
    var bytes := EncodePort(port);
    assert bytes[..1][..0] == [];
    assert BigEndian(bytes[..1]) == (port / 256) as nat;
  }

  /** On the wire: version 5, command, reserved, the type of the address, the address, the port in network order. */
  lemma RequestLayout(command: Byte, reserved: Byte, d: Destination, port: Port)
    requires WellFormed(d)
    ensures var bytes := EncodeRequest(command, reserved, d, port);
            var end := |bytes| - 2;
            && end >= 4 && bytes[0] == 5 && bytes[1] == command && bytes[2] == reserved
            && BigEndian(bytes[end..]) == port as nat
            && match d
               case IPv4(octets) => bytes[3] == 1 && bytes[4..end] == octets
               case IPv6(octets) => bytes[3] == 4 && bytes[4..end] == octets
               case DomainName(octets) => bytes[3] == 3 && bytes[4] as nat == |octets| && bytes[5..end] == octets
  {
    var bytes := EncodeRequest(command, reserved, d, port);
    var end := |bytes| - 2;
    PortLayout(port);
    assert bytes[end..] == EncodePort(port) && bytes[4..end] == EncodeAddress(d);
    if d.DomainName? {
      assert bytes[5..end] == bytes[4..end][1..] && bytes[4] == bytes[4..end][0];
    }
  }

  lemma EndpointIsRead(d: Destination, port: Port, rest: Bytes)
    requires WellFormed(d)
    ensures ReadEndpoint(EncodeAddress(d) + (EncodePort(port) + rest), AddressType(d))
              == Reading(Ok(Endpoint(d, port)), rest, [])
  {
    AddressIsRead(d, EncodePort(port) + rest);
    TakeExactly(EncodePort(port), rest);
    PortRoundTrip(port, EncodePort(port));
  }

  lemma OnlyEndpointsAreRead(input: Bytes, addressType: Byte)
    requires ReadEndpoint(input, addressType).result.Ok?
    ensures var r := ReadEndpoint(input, addressType);
            input == EncodeAddress(r.result.value.destination) + (EncodePort(r.result.value.port) + r.rest)
  {
    OnlyAddressesAreRead(input, addressType);
    var address := ReadAddress(input, addressType);
    PortRoundTrip(0, Take(address.rest, 2).result.value);
  }

  /**
   A well-formed request is read to its last byte and not further; one that is not CONNECT is
   answered and refused.
   */
  lemma RequestIsRead(command: Byte, reserved: Byte, d: Destination, port: Port, rest: Bytes, text: AddressText)
    requires WellFormed(d)
    ensures ReadRequest(EncodeRequest(command, reserved, d, port) + rest, text) ==
            if command == CONNECT then Reading(Ok(Target(HostOf(d, text), port)), rest, [])
            else Reading(Err(UnsupportedCommand), rest, EncodeReply(COMMAND_NOT_SUPPORTED))
  {
    var header := [VERSION, command, reserved, AddressType(d)];
    var body := EncodeAddress(d) + (EncodePort(port) + rest);
    assert EncodeRequest(command, reserved, d, port) + rest == header + body;
    TakeExactly(header, body);
    EndpointIsRead(d, port, rest);
  }

  /** Nothing else is accepted. */
  lemma OnlyRequestsAreAccepted(input: Bytes, text: AddressText) returns (reserved: Byte, d: Destination)
    requires ReadRequest(input, text).result.Ok?
    ensures var target := ReadRequest(input, text).result.value;
            && WellFormed(d) && target.host == HostOf(d, text)
            && input == EncodeRequest(CONNECT, reserved, d, target.port) + ReadRequest(input, text).rest
  {
    var header := Take(input, 4);
    var endpoint := ReadEndpoint(header.rest, header.result.value[3]);
    reserved, d := header.result.value[2], endpoint.result.value.destination;
    OnlyEndpointsAreRead(header.rest, header.result.value[3]);
    assert header.result.value == [VERSION, CONNECT, reserved, AddressType(d)];
    assert input == header.result.value + (EncodeAddress(d) + (EncodePort(endpoint.result.value.port) + endpoint.rest));
  }

  /** Both parts of the handshake, one after the other. */
  function Handshake(input: Bytes, text: AddressText): Reading<Target> {
    var greeting := Negotiate(input);
    if greeting.result.Err? then Reading(Err(greeting.result.error), greeting.rest, greeting.reply)
    else
      var request := ReadRequest(greeting.rest, text);
      Reading(request.result, request.rest, greeting.reply + request.reply)
  }

  /** A stream that asks for the target and then goes on with the given bytes. */
  ghost predicate Asks(input: Bytes, text: AddressText, target: Target, rest: Bytes) {
    exists methods: Bytes, reserved: Byte, d: Destination ::
      && |methods| <= 255 && NO_AUTH_REQUIRED in methods && WellFormed(d)
      && target.host == HostOf(d, text)
      && input == Greeting(methods) + (EncodeRequest(CONNECT, reserved, d, target.port) + rest)
  }

  /** The handshake yields a target and leaves some bytes exactly when that is what the client asked for and sent. */
  lemma HandshakeIsExact(input: Bytes, text: AddressText, target: Target, rest: Bytes)
    ensures Handshake(input, text).result == Ok(target) && Handshake(input, text).rest == rest <==>
              Asks(input, text, target, rest)
  {
    if Asks(input, text, target, rest) {
      var methods: Bytes, reserved: Byte, d: Destination :|
        && |methods| <= 255 && NO_AUTH_REQUIRED in methods && WellFormed(d)
        && target.host == HostOf(d, text)
        && input == Greeting(methods) + (EncodeRequest(CONNECT, reserved, d, target.port) + rest);
      GreetingIsRead(methods, EncodeRequest(CONNECT, reserved, d, target.port) + rest);
      RequestIsRead(CONNECT, reserved, d, target.port, rest, text);
    }
    if Handshake(input, text).result == Ok(target) && Handshake(input, text).rest == rest {
      var methods := OnlyGreetingsAreAccepted(input);
      var reserved, d := OnlyRequestsAreAccepted(Negotiate(input).rest, text);
      assert input == Greeting(methods) + (EncodeRequest(CONNECT, reserved, d, target.port) + rest);
    }
  }

  lemma CutAddress(d: Destination, k: nat)
    requires WellFormed(d) && k < |EncodeAddress(d)|
    ensures ReadAddress(EncodeAddress(d)[..k], AddressType(d)).result == Err(EndOfStream)
  {
    if d.DomainName? && k > 0 {
      assert EncodeAddress(d)[..k] == [|d.octets| as Byte] + d.octets[..k - 1];
      TakeExactly([|d.octets| as Byte], d.octets[..k - 1]);
    }
  }

  lemma CutEndpoint(d: Destination, port: Port, k: nat)
    requires WellFormed(d) && k < |EncodeAddress(d)| + 2
    ensures ReadEndpoint((EncodeAddress(d) + EncodePort(port))[..k], AddressType(d)).result == Err(EndOfStream)
  {
    var cut := (EncodeAddress(d) + EncodePort(port))[..k];
    if k < |EncodeAddress(d)| {
      assert cut == EncodeAddress(d)[..k];
      CutAddress(d, k);
    } else {
      var rest := EncodePort(port)[..k - |EncodeAddress(d)|];
      assert cut == EncodeAddress(d) + rest;
      AddressIsRead(d, rest);
    }
  }

  /** A request that breaks off anywhere is never taken for a complete one. */
  lemma CutRequest(command: Byte, reserved: Byte, d: Destination, port: Port, k: nat, text: AddressText)
    requires WellFormed(d) && k < |EncodeRequest(command, reserved, d, port)|
    ensures ReadRequest(EncodeRequest(command, reserved, d, port)[..k], text).result == Err(EndOfStream)
  {
    if k >= 4 {
      var header := [VERSION, command, reserved, AddressType(d)];
      var body := (EncodeAddress(d) + EncodePort(port))[..k - 4];
      assert EncodeRequest(command, reserved, d, port)[..k] == header + body;
      TakeExactly(header, body);
      CutEndpoint(d, port, k - 4);
    }
  }

  /** A reply is laid out like a request: a client finds the code where the command is, and an all-zero address. */
  lemma ReplyIsReadable(code: Byte, rest: Bytes)
    ensures EncodeReply(code) == EncodeRequest(code, 0, IPv4([0, 0, 0, 0]), 0)
    ensures var header := Take(EncodeReply(code) + rest, 4);
            && header.result == Ok([VERSION, code, 0, 1])
            && ReadEndpoint(header.rest, 1) == Reading(Ok(Endpoint(IPv4([0, 0, 0, 0]), 0)), rest, [])
  {
    var header, nowhere := [VERSION, code, 0, 1], IPv4([0, 0, 0, 0]);
    assert EncodeRequest(code, 0, nowhere, 0) == header + [0, 0, 0, 0] + [0, 0] == EncodeReply(code);
    assert EncodeReply(code) + rest == header + (EncodeAddress(nowhere) + (EncodePort(0) + rest));
    TakeExactly(header, EncodeAddress(nowhere) + (EncodePort(0) + rest));
    EndpointIsRead(nowhere, 0, rest);
  }

  /** The server's end of a client connection. */
  class Connection {
    var input: Bytes
    var output: Bytes
    const writable: bool

    constructor (input: Bytes, writable: bool)
      ensures this.input == input && output == [] && this.writable == writable
    {
      this.input := input;
      output := [];
      this.writable := writable;
    }

    /** What a write adds to what the client has been sent. */
    function Sent(bytes: Bytes): Bytes {
      if writable then bytes else []
    }

    method ReadFull(n: nat) returns (bytes: Option<Bytes>)
      modifies this`input
      ensures var read := Take(old(input), n);
              && input == read.rest
              && bytes == if read.result.Ok? then Some(read.result.value) else None
    {
      if |input| < n {
        input := [];
        return None;
      }
      bytes := Some(input[..n]);
      input := input[n..];
    }

    method Write(bytes: Bytes) returns (ok: bool)
      modifies this`output
      ensures output == old(output) + Sent(bytes) && ok == writable
    {
      if writable {
        output := output + bytes;
      }
      return writable;
    }

    method SendReply(code: Byte) returns (ok: bool)
      modifies this`output
      ensures output == old(output) + Sent(EncodeReply(code)) && ok == writable
    {
      ok := Write([VERSION, code, 0, 1, 0, 0, 0, 0, 0, 0]);
    }

    method Authenticate() returns (result: Result<(), SocksError>)
      modifies this
      ensures var spec := Negotiate(old(input));
              && input == spec.rest && output == old(output) + Sent(spec.reply)
              && result == if spec.result.Ok? && !writable then Err(WriteFailed) else spec.result
    {
      var header := ReadFull(2);
      if header.None? {
        return Err(EndOfStream);
      }
      if header.value[0] != VERSION {
        return Err(UnsupportedVersion);
      }
      var methods := ReadFull(header.value[1] as nat);
      if methods.None? {
        return Err(EndOfStream);
      }
      for i := 0 to |methods.value|
        invariant NO_AUTH_REQUIRED !in methods.value[..i]
        invariant output == old(output)
      {
        if methods.value[i] == NO_AUTH_REQUIRED {
          var ok := Write([VERSION, NO_AUTH_REQUIRED]);
          return if ok then Ok(()) else Err(WriteFailed);
        }
      }
      assert methods.value[..|methods.value|] == methods.value;
      var _ := Write([VERSION, NO_ACCEPTABLE_METHOD]);
      return Err(UnsupportedAuth);
    }

    method ReadDestination(addressType: Byte) returns (result: Result<Destination, SocksError>)
      modifies this`input
      ensures var spec := ReadAddress(old(input), addressType); input == spec.rest && result == spec.result
    {
      var length: nat;
      if addressType == 3 {
        var prefix := ReadFull(1);
        if prefix.None? {
          return Err(EndOfStream);
        }
        length := prefix.value[0] as nat;
      } else if addressType == 1 {
        length := 4;
      } else if addressType == 4 {
        length := 16;
      } else {
        return Err(UnsupportedAddress);
      }
      var octets := ReadFull(length);
      if octets.None? {
        return Err(EndOfStream);
      }
      if addressType == 3 {
        return Ok(DomainName(octets.value));
      }
      return Ok(if addressType == 1 then IPv4(octets.value) else IPv6(octets.value));
    }

    method ParseRequest(text: AddressText) returns (result: Result<Target, SocksError>)
      modifies this
      ensures var spec := ReadRequest(old(input), text);
              input == spec.rest && output == old(output) + Sent(spec.reply) && result == spec.result
    {
      var header := ReadFull(4);
      if header.None? {
        return Err(EndOfStream);
      }
      if header.value[0] != VERSION {
        return Err(UnsupportedVersion);
      }
      var destination := ReadDestination(header.value[3]);
      if destination.Err? {
        return Err(destination.error);
      }
      var port := ReadFull(2);
      if port.None? {
        return Err(EndOfStream);
      }
      if header.value[1] != CONNECT {
        var _ := SendReply(COMMAND_NOT_SUPPORTED);
        return Err(UnsupportedCommand);
      }
      return Ok(Target(HostOf(destination.value, text), port.value[0] as Port * 256 + port.value[1] as Port));
    }

    /** The handshake up to the tunnel: what is left of the input is what the tunnel carries first. */
    method Accept(text: AddressText) returns (result: Result<Target, SocksError>)
      modifies this
      ensures result.Ok? ==>
                Asks(old(input), text, result.value, input) && output == old(output) + [VERSION, NO_AUTH_REQUIRED]
      ensures forall target, rest | Asks(old(input), text, target, rest) && writable ::
                result == Ok(target) && input == rest
    {
      var greeting := Authenticate();
      if greeting.Err? {
        result := Err(greeting.error);
      } else {
        result := ParseRequest(text);
      }
      ghost var spec := Handshake(old(input), text);
      forall target, rest ensures Asks(old(input), text, target, rest) <==>
          spec.result == Ok(target) && spec.rest == rest {
        HandshakeIsExact(old(input), text, target, rest);
      }
    }
  }
}
