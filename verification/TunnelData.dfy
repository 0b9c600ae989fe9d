/**
 The payload of a tunnel request and of a forward request: strings and 32-bit numbers in
 the encoding of section 5 of RFC 4251, laid out as in sections 7.1 and 7.2 of RFC 4254.
 */
module TunnelData {
  import opened Common

  newtype Byte = n: int | 0 <= n < 256
  newtype Uint32 = n: int | 0 <= n < 0x1_0000_0000

  type Bytes = seq<Byte>

  const MAX_PORT: Uint32 := 65535

  datatype TunnelData = TunnelData(host: Bytes, port: Uint32, originAddress: Bytes, originPort: Uint32)

  datatype ForwardRequest = ForwardRequest(host: Bytes, port: Uint32)

  datatype DecodeError = Malformed | PortOutOfRange

  function EncodeUint32(n: Uint32): (bytes: Bytes)
    ensures |bytes| == 4
  {
    [(n / 0x100_0000) as Byte, (n / 0x1_0000 % 256) as Byte, (n / 256 % 256) as Byte, (n % 256) as Byte]
  }

  function Uint32At(bytes: Bytes): Uint32
    requires |bytes| >= 4
  {
    bytes[0] as Uint32 * 0x100_0000 + bytes[1] as Uint32 * 0x1_0000 + bytes[2] as Uint32 * 256 + bytes[3] as Uint32
  }

  /** The length prefix is the length cut to 32 bits. */
  function EncodeString(s: Bytes): Bytes {
    EncodeUint32((|s| % 0x1_0000_0000) as Uint32) + s
  }

  /** A value and the bytes after it. */
  datatype Parsed<+T> = Parsed(value: T, rest: Bytes)

  function ParseUint32(bytes: Bytes): Option<Parsed<Uint32>> {
    if |bytes| < 4 then None else Some(Parsed(Uint32At(bytes), bytes[4..]))
  }

  function ParseString(bytes: Bytes): Option<Parsed<Bytes>> {
    if |bytes| < 4 || |bytes| - 4 < Uint32At(bytes) as int then None
    else Some(Parsed(bytes[4..4 + Uint32At(bytes) as int], bytes[4 + Uint32At(bytes) as int..]))
  }

  function EncodeHostPort(host: Bytes, port: Uint32): Bytes {
    EncodeString(host) + EncodeUint32(port)
  }

  function ParseHostPort(bytes: Bytes): Option<Parsed<ForwardRequest>> {
    var host := ParseString(bytes);
    if host.None? then None
    else
      var port := ParseUint32(host.value.rest);
      if port.None? then None else Some(Parsed(ForwardRequest(host.value.value, port.value.value), port.value.rest))
  }

  function Marshal(data: TunnelData): Bytes {
    EncodeHostPort(data.host, data.port) + EncodeHostPort(data.originAddress, data.originPort)
  }

  /** Leftover bytes are malformed too. */
  function Unmarshal(payload: Bytes): Result<TunnelData, DecodeError> {
    var target := ParseHostPort(payload);
    if target.None? then Err(Malformed)
    else
      var origin := ParseHostPort(target.value.rest);
      if origin.None? || origin.value.rest != [] then Err(Malformed)
      else if target.value.value.port > MAX_PORT || origin.value.value.port > MAX_PORT then Err(PortOutOfRange)
      else Ok(TunnelData(target.value.value.host, target.value.value.port, origin.value.value.host,
          origin.value.value.port))
  }

  function UnmarshalForwardRequest(payload: Bytes): Result<ForwardRequest, DecodeError> {
    var request := ParseHostPort(payload);
    if request.None? || request.value.rest != [] then Err(Malformed)
    else if request.value.value.port > MAX_PORT then Err(PortOutOfRange)
    else Ok(request.value.value)
  }

  predicate Fits(s: Bytes) {
    |s| < 0x1_0000_0000
  }

  lemma DecodeEncodeUint32(n: Uint32, rest: Bytes)
    ensures Uint32At(EncodeUint32(n) + rest) == n
  {
    var a := n / 256;
    var b := a / 256;
    assert n / 0x1_0000 == b && n / 0x100_0000 == b / 256;
    assert n == a * 256 + n % 256 && a == b * 256 + a % 256 && b == b / 256 * 256 + b % 256;
    var bytes := EncodeUint32(n) + rest;
    assert bytes[0] as Uint32 == b / 256 && bytes[1] as Uint32 == b % 256 && bytes[2] as Uint32 == a % 256
        && bytes[3] as Uint32 == n % 256;
  }

  lemma EncodeDecodeUint32(bytes: Bytes)
    requires |bytes| >= 4
    ensures EncodeUint32(Uint32At(bytes)) == bytes[..4]
  {
    var n := Uint32At(bytes);
    assert n / 0x100_0000 == bytes[0] as Uint32;
    assert n / 0x1_0000 == bytes[0] as Uint32 * 256 + bytes[1] as Uint32;
    assert n / 256 == (bytes[0] as Uint32 * 256 + bytes[1] as Uint32) * 256 + bytes[2] as Uint32;
  }

  lemma ParseEncodedString(s: Bytes, rest: Bytes)
    requires Fits(s)
    ensures ParseString(EncodeString(s) + rest) == Some(Parsed(s, rest))
  {
    var bytes := EncodeString(s) + rest;
    assert bytes == EncodeUint32(|s| as Uint32) + (s + rest);
    DecodeEncodeUint32(|s| as Uint32, s + rest);
    assert bytes[4..4 + |s|] == s;
    assert bytes[4 + |s|..] == rest;
  }

  lemma ParsedStringIsEncoded(bytes: Bytes)
    requires ParseString(bytes).Some?
    ensures var parsed := ParseString(bytes).value;
            Fits(parsed.value) && bytes == EncodeString(parsed.value) + parsed.rest
  {
    EncodeDecodeUint32(bytes);
    var n := Uint32At(bytes) as int;
    assert bytes == bytes[..4] + bytes[4..4 + n] + bytes[4 + n..];
  }

  lemma ParseEncodedHostPort(host: Bytes, port: Uint32, rest: Bytes)
    requires Fits(host)
    ensures ParseHostPort(EncodeHostPort(host, port) + rest) == Some(Parsed(ForwardRequest(host, port), rest))
  {
    var tail := EncodeUint32(port) + rest;
    assert EncodeHostPort(host, port) + rest == EncodeString(host) + tail;
    ParseEncodedString(host, tail);
    DecodeEncodeUint32(port, rest);
    assert tail[4..] == rest;
  }

  lemma ParsedHostPortIsEncoded(bytes: Bytes)
    requires ParseHostPort(bytes).Some?
    ensures var parsed := ParseHostPort(bytes).value;
            Fits(parsed.value.host) && bytes == EncodeHostPort(parsed.value.host, parsed.value.port) + parsed.rest
  {
    ParsedStringIsEncoded(bytes);
    var tail := ParseString(bytes).value.rest;
    EncodeDecodeUint32(tail);
    assert tail == tail[..4] + tail[4..];
  }

  /** The number that bytes in network order stand for, the most significant byte first. */
  function BigEndian(bytes: Bytes): nat {
    if bytes == [] then 0 else BigEndian(bytes[..|bytes| - 1]) * 256 + bytes[|bytes| - 1] as nat
  }

  lemma NetworkOrder(bytes: Bytes)
    requires |bytes| == 4
    ensures BigEndian(bytes) == Uint32At(bytes) as nat
  {
    var most, high, first := bytes[..3], bytes[..2], bytes[..1];
    assert most[..2] == high && high[..1] == first && first[..0] == [];
    assert BigEndian(first) == bytes[0] as nat;
    assert BigEndian(high) == BigEndian(first) * 256 + bytes[1] as nat;
    assert BigEndian(most) == BigEndian(high) * 256 + bytes[2] as nat;
  }

  lemma NumberLayout(n: Uint32)
    ensures BigEndian(EncodeUint32(n)) == n as nat
  {
    DecodeEncodeUint32(n, []);
    assert EncodeUint32(n) + [] == EncodeUint32(n);
    NetworkOrder(EncodeUint32(n));
  }

  /** On the wire: the length of the string in four bytes, the string, and the port in four bytes. */
  predicate IsHostPort(bytes: Bytes, host: Bytes, port: Uint32) {
    && |bytes| == |host| + 8 && BigEndian(bytes[..4]) == |host|
    && bytes[4..4 + |host|] == host && BigEndian(bytes[4 + |host|..]) == port as nat
  }

  lemma HostPortLayout(host: Bytes, port: Uint32)
    requires Fits(host)
    ensures IsHostPort(EncodeHostPort(host, port), host, port)
  {
    var bytes := EncodeHostPort(host, port);
    NumberLayout(|host| as Uint32);
    NumberLayout(port);
    assert bytes[..4] == EncodeUint32(|host| as Uint32) && bytes[4 + |host|..] == EncodeUint32(port);
  }

  /** The requested host and port come first, then where the connection comes from. */
  lemma FieldsInOrder(data: TunnelData)
    requires Fits(data.host) && Fits(data.originAddress)
    ensures var k := |data.host| + 8;
            && |Marshal(data)| >= k
            && IsHostPort(Marshal(data)[..k], data.host, data.port)
            && IsHostPort(Marshal(data)[k..], data.originAddress, data.originPort)
  {
    HostPortLayout(data.host, data.port);
    HostPortLayout(data.originAddress, data.originPort);
    var k := |data.host| + 8;
    assert Marshal(data)[..k] == EncodeHostPort(data.host, data.port);
    assert Marshal(data)[k..] == EncodeHostPort(data.originAddress, data.originPort);
  }

  predicate Decodable(data: TunnelData) {
    Fits(data.host) && Fits(data.originAddress) && data.port <= MAX_PORT && data.originPort <= MAX_PORT
  }

  lemma UnmarshalMarshalled(data: TunnelData)
    requires Fits(data.host) && Fits(data.originAddress)
    ensures Unmarshal(Marshal(data)) == if Decodable(data) then Ok(data) else Err(PortOutOfRange)
  {
    var origin := EncodeHostPort(data.originAddress, data.originPort);
    ParseEncodedHostPort(data.host, data.port, origin);
    ParseEncodedHostPort(data.originAddress, data.originPort, []);
    assert origin + [] == origin;
  }

  /** Whatever decodes is the encoding of what it decodes to, so two payloads never decode alike. */
  lemma UnmarshalledIsMarshalled(payload: Bytes)
    requires Unmarshal(payload).Ok?
    ensures Decodable(Unmarshal(payload).value) && Marshal(Unmarshal(payload).value) == payload
  {
    ParsedHostPortIsEncoded(payload);
    ParsedHostPortIsEncoded(ParseHostPort(payload).value.rest);
    var data := Unmarshal(payload).value;
    assert EncodeHostPort(data.originAddress, data.originPort) + []
        == EncodeHostPort(data.originAddress, data.originPort);
  }

  /** The receiver decodes exactly what was sent if and only if the strings fit and both ports are ports. */
  lemma RoundTrip(data: TunnelData)
    ensures Unmarshal(Marshal(data)) == Ok(data) <==> Decodable(data)
  {
    if Decodable(data) {
      UnmarshalMarshalled(data);
    } else if Unmarshal(Marshal(data)) == Ok(data) {
      UnmarshalledIsMarshalled(Marshal(data));
      assert false;
    }
  }

  /** A forward request decodes exactly when it is the encoding of a host and a port. */
  lemma ForwardRequestDecodes(payload: Bytes, request: ForwardRequest)
    ensures UnmarshalForwardRequest(payload) == Ok(request) <==>
              Fits(request.host) && request.port <= MAX_PORT && payload == EncodeHostPort(request.host, request.port)
  {
    if UnmarshalForwardRequest(payload).Ok? {
      ParsedHostPortIsEncoded(payload);
      var decoded := UnmarshalForwardRequest(payload).value;
      assert EncodeHostPort(decoded.host, decoded.port) + [] == EncodeHostPort(decoded.host, decoded.port);
    }
    if Fits(request.host) && payload == EncodeHostPort(request.host, request.port) {
      ParseEncodedHostPort(request.host, request.port, []);
      assert payload + [] == payload;
    }
  }
}
