/** Reading the server name out of a TLS ClientHello (src/proxy/tcp.rs, lines 701-811), against the
    formats of section 7.4.1.2 of RFC 5246 and section 3 of RFC 6066. */
module ServerNames {
  import opened Prelude

  type bytes = seq<byte>

  // ---- the format ----

  /** Big-endian numbers of one, two and three bytes. */
  function Be1(n: nat): bytes requires n < 0x100 { [n] }

  function Be2(n: nat): bytes requires n < 0x1_0000 { [n / 0x100, n % 0x100] }

  function Be3(n: nat): bytes requires n < 0x100_0000 { [n / 0x1_0000, n / 0x100 % 0x100, n % 0x100] }

  /** ServerName of RFC 6066; the parser takes every name type to carry a two-byte length. */
  datatype Name = Name(kind: byte, value: bytes)

  datatype Extension =
    | ServerNameList(names: seq<Name>)         // extension type 0
    | Other(kind: nat, data: bytes)

  datatype Hello = Hello(
    handshakeType: byte,
    versionAndRandom: bytes,        // 2 + 32 bytes
    sessionId: bytes,
    cipherSuites: bytes,
    compressionMethods: bytes,
    extensions: Option<seq<Extension>>)

  predicate NameFits(n: Name) { |n.value| < 0x1_0000 }

  function EncodeName(n: Name): bytes
    requires NameFits(n)
  {
    [n.kind] + Be2(|n.value|) + n.value
  }

  function EncodeNames(ns: seq<Name>): bytes
    requires forall n :: n in ns ==> NameFits(n)
  {
    if ns == [] then [] else EncodeName(ns[0]) + EncodeNames(ns[1..])
  }

  /** What follows the type and length of an extension. */
  function Body(e: Extension): bytes
    requires BodyFits(e)
  {
    match e
    case ServerNameList(names) => Be2(|EncodeNames(names)|) + EncodeNames(names)
    case Other(_, data) => data
  }

  predicate BodyFits(e: Extension) {
    match e
    case ServerNameList(names) =>
      (forall n :: n in names ==> NameFits(n)) && |EncodeNames(names)| < 0x1_0000
    case Other(kind, _) => 0 < kind < 0x1_0000
  }

  predicate ExtensionFits(e: Extension) { BodyFits(e) && |Body(e)| < 0x1_0000 }

  function EncodeExtension(e: Extension): bytes
    requires ExtensionFits(e)
  {
    Be2(if e.Other? then e.kind else 0) + Be2(|Body(e)|) + Body(e)
  }

  function EncodeExtensions(es: seq<Extension>): bytes
    requires forall e :: e in es ==> ExtensionFits(e)
  {
    if es == [] then [] else EncodeExtension(es[0]) + EncodeExtensions(es[1..])
  }

  predicate ExtensionsFit(es: seq<Extension>) {
    (forall e :: e in es ==> ExtensionFits(e)) && |EncodeExtensions(es)| < 0x1_0000
  }

  predicate WellFormed(h: Hello) {
    && |h.versionAndRandom| == 34
    && |h.sessionId| <= 32
    && |h.cipherSuites| < 0x1_0000 && |h.cipherSuites| % 2 == 0
    && |h.compressionMethods| < 0x100
    && (h.extensions.Some? ==> ExtensionsFit(h.extensions.value))
  }

  function EncodeTail(h: Hello): bytes
    requires WellFormed(h)
  {
    match h.extensions
    case None => []
    case Some(es) => Be2(|EncodeExtensions(es)|) + EncodeExtensions(es)
  }

  function EncodeAfterSession(h: Hello): bytes
    requires WellFormed(h)
  {
    (Be2(|h.cipherSuites|) + h.cipherSuites)
    + ((Be1(|h.compressionMethods|) + h.compressionMethods) + EncodeTail(h))
  }

  function EncodeBody(h: Hello): bytes
    requires WellFormed(h)
  {
    h.versionAndRandom + (Be1(|h.sessionId|) + (h.sessionId + EncodeAfterSession(h)))
  }

  /** The handshake message. */
  function EncodeHello(h: Hello): bytes
    requires WellFormed(h) && |EncodeBody(h)| < 0x100_0000
  {
    [h.handshakeType] + Be3(|EncodeBody(h)|) + EncodeBody(h)
  }

  // ---- what the name is ----

  function LowerByte(b: byte): byte { if 65 <= b <= 90 then b + 32 else b }

  function LowerBytes(s: bytes): (r: bytes)
    ensures |r| == |s| && forall i :: 0 <= i < |s| ==> r[i] == LowerByte(s[i])
  {
    seq(|s|, i requires 0 <= i < |s| => LowerByte(s[i]))
  }

  /** The first host_name of a list, or nothing. */
  function HostName(ns: seq<Name>): bytes {
    if ns == [] then [] else if ns[0].kind == 0 then LowerBytes(ns[0].value) else HostName(ns[1..])
  }

  /** The first server_name extension decides. */
  function Indicated(es: seq<Extension>): bytes {
    if es == [] then [] else if es[0].ServerNameList? then HostName(es[0].names) else Indicated(es[1..])
  }

  function ServerNameOf(h: Hello): bytes {
    match h.extensions
    case None => []
    case Some(es) => Indicated(es)
  }

  // ---- the parser, as a function of the message ----

  function Two(data: bytes): nat
    requires |data| >= 2
  {
    data[0] as nat * 0x100 + data[1] as nat
  }

  function ParseNames(names: bytes): Option<bytes>
    decreases |names|
  {
    if names == [] then Some([])
    else if |names| < 3 then None
    else
      var kind, len, rest := names[0], Two(names[1..]), names[3..];
      if |rest| < len then None
      else if kind == 0 then Some(LowerBytes(rest[..len]))
      else ParseNames(rest[len..])
  }

  function ParseServerNameList(body: bytes): Option<bytes> {
    if |body| < 2 then None
    else if Two(body) != |body| - 2 then None
    else ParseNames(body[2..])
  }

  function ParseExtensions(data: bytes): Option<bytes>
    decreases |data|
  {
    if data == [] then Some([])
    else if |data| < 4 then None
    else
      var kind, len, rest := Two(data), Two(data[2..]), data[4..];
      if |rest| < len then None
      else if kind == 0 then ParseServerNameList(rest[..len])
      else ParseExtensions(rest[len..])
  }

  function ParseTail(data: bytes): Option<bytes> {
    if data == [] then Some([])
    else if |data| < 2 || Two(data) != |data| - 2 then None
    else ParseExtensions(data[2..])
  }

  function ParseCompression(data: bytes): Option<bytes> {
    if data == [] || |data| < 1 + data[0] as nat then None else ParseTail(data[1 + data[0] as nat..])
  }

  function ParseCiphers(data: bytes): Option<bytes> {
    if |data| < 2 || Two(data) % 2 == 1 || |data| < 2 + Two(data) then None
    else ParseCompression(data[2 + Two(data)..])
  }

  function Parse(msg: bytes): Option<bytes> {
    if |msg| < 42 then None
    else if msg[38] > 32 || |msg| < 39 + msg[38] as nat then None
    else ParseCiphers(msg[39 + msg[38] as nat..])
  }

  // ---- the parser, as the program runs it ----

  /** Advances one slice through the message.  The result is the name before the program decodes it
      as UTF-8 with replacement, which leaves ASCII names alone. */
  method ReadServerName(msg: bytes) returns (r: Option<bytes>)
    ensures r == Parse(msg)
  {
    if |msg| < 42 {
      return None;
    }
    var data := msg;
    var sessionIdLen := data[38] as nat;
    if sessionIdLen > 32 || |data| < 39 + sessionIdLen {
      return None;
    }
    data := data[39 + sessionIdLen..];

    if |data| < 2 {
      return None;
    }
    var cipherSuiteLen := data[0] as nat * 0x100 + data[1] as nat;
    if cipherSuiteLen % 2 == 1 || |data| < 2 + cipherSuiteLen {
      return None;
    }
    r := ReadAfterCiphers(data[2 + cipherSuiteLen..]);
  }

  /** The compression methods and the length of the extensions. */
  method ReadAfterCiphers(rest: bytes) returns (r: Option<bytes>)
    ensures r == ParseCompression(rest)
  {
    var data := rest;
    if data == [] {
      return None;
    }
    var compressionMethodsLen := data[0] as nat;
    if |data| < 1 + compressionMethodsLen {
      return None;
    }
    data := data[1 + compressionMethodsLen..];

    if data == [] {
      return Some([]);
    }
    if |data| < 2 {
      return None;
    }
    var extensionsLength := data[0] as nat * 0x100 + data[1] as nat;
    data := data[2..];
    if extensionsLength != |data| {
      return None;
    }

    r := ReadExtensions(data);
  }

  /** The outer loop, over the extensions. */
  method ReadExtensions(extensions: bytes) returns (r: Option<bytes>)
    ensures r == ParseExtensions(extensions)
  {
    var data := extensions;
    while data != []
      invariant ParseExtensions(extensions) == ParseExtensions(data)
      decreases |data|
    {
      if |data| < 4 {
        return None;
      }
      var extension := data[0] as nat * 0x100 + data[1] as nat;
      var length := data[2] as nat * 0x100 + data[3] as nat;
      data := data[4..];
      if |data| < length {
        return None;
      }
      if extension == 0 {
        r := ReadNames(data[..length]);
        return;
      }
      data := data[length..];
    }
    r := Some([]);
  }

  /** The inner loop, over the body of a server_name extension. */
  method ReadNames(body: bytes) returns (r: Option<bytes>)
    ensures r == ParseServerNameList(body)
  {
    var names := body;
    if |names| < 2 {
      return None;
    }
    var namesLen := names[0] as nat * 0x100 + names[1] as nat;
    names := names[2..];
    if namesLen != |names| {
      return None;
    }
    while names != []
      invariant ParseServerNameList(body) == ParseNames(names)
      decreases |names|
    {
      if |names| < 3 {
        return None;
      }
      var nameType := names[0];
      var nameLen := names[1] as nat * 0x100 + names[2] as nat;
      names := names[3..];
      if |names| < nameLen {
        return None;
      }
      if nameType == 0 {
        return Some(LowerBytes(names[..nameLen]));
      }
      names := names[nameLen..];
    }
    r := Some([]);
  }

  // ---- round trip ----

  lemma Be2Reads(n: nat, tail: bytes)
    requires n < 0x1_0000
    ensures |Be2(n) + tail| >= 2 && Two(Be2(n) + tail) == n && (Be2(n) + tail)[2..] == tail
  {
  }

  /** Cutting a list into its first |a| bytes and the rest. */
  lemma Cut(a: bytes, b: bytes)
    ensures (a + b)[..|a|] == a && (a + b)[|a|..] == b
  {
  }

  lemma OneName(n: Name, tail: bytes)
    requires NameFits(n)
    ensures ParseNames(EncodeName(n) + tail) == if n.kind == 0 then Some(LowerBytes(n.value)) else ParseNames(tail)
  {
    var all := EncodeName(n) + tail;
    Be2Reads(|n.value|, n.value + tail);
    assert all[1..] == Be2(|n.value|) + (n.value + tail);
    assert all[3..] == n.value + tail;
    Cut(n.value, tail);
  }

  lemma {:induction false} NamesRoundTrip(ns: seq<Name>)
    requires forall n :: n in ns ==> NameFits(n)
    ensures ParseNames(EncodeNames(ns)) == Some(HostName(ns))
  {
    if ns != [] {
      OneName(ns[0], EncodeNames(ns[1..]));
      NamesRoundTrip(ns[1..]);
    }
  }

  lemma ListRoundTrip(ns: seq<Name>)
    requires BodyFits(ServerNameList(ns))
    ensures ParseServerNameList(Body(ServerNameList(ns))) == Some(HostName(ns))
  {
    Be2Reads(|EncodeNames(ns)|, EncodeNames(ns));
    NamesRoundTrip(ns);
  }

  lemma Header(kind: nat, body: bytes, tail: bytes)
    requires kind < 0x1_0000 && |body| < 0x1_0000
    ensures var all := Be2(kind) + Be2(|body|) + body + tail;
            |all| >= 4 && Two(all) == kind && Two(all[2..]) == |body| && all[4..] == body + tail
  {
    var all := Be2(kind) + Be2(|body|) + body + tail;
    assert all == Be2(kind) + (Be2(|body|) + (body + tail));
    Be2Reads(kind, Be2(|body|) + (body + tail));
    Be2Reads(|body|, body + tail);
    assert all[4..] == all[2..][2..];
  }

  lemma OneExtension(e: Extension, tail: bytes)
    requires ExtensionFits(e)
    ensures ParseExtensions(EncodeExtension(e) + tail) ==
              if e.ServerNameList? then Some(HostName(e.names)) else ParseExtensions(tail)
  {
    Header(if e.Other? then e.kind else 0, Body(e), tail);
    Cut(Body(e), tail);
    if e.ServerNameList? { ListRoundTrip(e.names); }
  }

  lemma {:induction false} ExtensionsRoundTrip(es: seq<Extension>)
    requires forall e :: e in es ==> ExtensionFits(e)
    ensures ParseExtensions(EncodeExtensions(es)) == Some(Indicated(es))
  {
    if es != [] {
      OneExtension(es[0], EncodeExtensions(es[1..]));
      ExtensionsRoundTrip(es[1..]);
    }
  }

  lemma TailRoundTrip(h: Hello)
    requires WellFormed(h)
    ensures ParseTail(EncodeTail(h)) == Some(ServerNameOf(h))
  {
    if h.extensions.Some? {
      var es := h.extensions.value;
      Be2Reads(|EncodeExtensions(es)|, EncodeExtensions(es));
      ExtensionsRoundTrip(es);
    }
  }

  lemma CiphersRoundTrip(h: Hello)
    requires WellFormed(h)
    ensures ParseCiphers(EncodeAfterSession(h)) == Some(ServerNameOf(h))
  {
    var tail := EncodeTail(h);
    var rest := (Be1(|h.compressionMethods|) + h.compressionMethods) + tail;
    var all := (Be2(|h.cipherSuites|) + h.cipherSuites) + rest;
    assert all == Be2(|h.cipherSuites|) + (h.cipherSuites + rest);
    Be2Reads(|h.cipherSuites|, h.cipherSuites + rest);
    assert all[2 + |h.cipherSuites|..] == rest;
    assert rest[1 + |h.compressionMethods|..] == tail;
    TailRoundTrip(h);
  }

  /** Every well-formed ClientHello yields exactly its server name in lower case, and the empty name
      when it carries none. */
  lemma HelloRoundTrip(h: Hello)
    requires WellFormed(h) && |EncodeBody(h)| < 0x100_0000
    ensures Parse(EncodeHello(h)) == Some(ServerNameOf(h))
  {
    var head := [h.handshakeType] + Be3(|EncodeBody(h)|);
    var front := head + h.versionAndRandom;
    assert EncodeHello(h) == front + (Be1(|h.sessionId|) + (h.sessionId + EncodeAfterSession(h))) by {
      Associates(head, h.versionAndRandom, Be1(|h.sessionId|) + (h.sessionId + EncodeAfterSession(h)));
    }
    CiphersRoundTrip(h);
    SkipSession(front, h.sessionId, EncodeAfterSession(h));
  }

  lemma Associates(a: bytes, b: bytes, c: bytes)
    ensures a + (b + c) == (a + b) + c
  {
  }

  /** The fixed part and the session id are skipped. */
  lemma SkipSession(front: bytes, sessionId: bytes, rest: bytes)
    requires |front| == 38 && |sessionId| <= 32 && |rest| >= 3
    ensures Parse(front + (Be1(|sessionId|) + (sessionId + rest))) == ParseCiphers(rest)
  {
    var msg := front + (Be1(|sessionId|) + (sessionId + rest));
    assert msg[38] == |sessionId|;
    assert msg == (front + Be1(|sessionId|) + sessionId) + rest;
    Cut(front + Be1(|sessionId|) + sessionId, rest);
  }

  // ---- on every byte string ----

  /** `name` is the lower-cased slice of `data` that starts at i. */
  ghost predicate SliceAt(name: bytes, data: bytes, i: nat) {
    i + |name| <= |data| && name == LowerBytes(data[i..i + |name|])
  }

  lemma SliceLater(name: bytes, data: bytes, k: nat, i: nat)
    requires k <= |data| && SliceAt(name, data[k..], i)
    ensures SliceAt(name, data, k + i)
  {
    assert data[k..][i..i + |name|] == data[k + i..k + i + |name|];
  }

  lemma SliceLonger(name: bytes, data: bytes, k: nat, i: nat)
    requires k <= |data| && SliceAt(name, data[..k], i)
    ensures SliceAt(name, data, i)
  {
    assert data[..k][i..i + |name|] == data[i..i + |name|];
  }

  lemma {:induction false} NamesSlice(names: bytes) returns (i: nat)
    requires ParseNames(names).Some?
    ensures SliceAt(ParseNames(names).value, names, i)
    decreases |names|
  {
    i := 0;
    if names != [] {
      var len, rest := Two(names[1..]), names[3..];
      if names[0] == 0 {
        SliceLonger(LowerBytes(rest[..len]), rest, len, 0);
        SliceLater(LowerBytes(rest[..len]), names, 3, 0);
        i := 3;
      } else {
        var j := NamesSlice(rest[len..]);
        SliceLater(ParseNames(names).value, rest, len, j);
        SliceLater(ParseNames(names).value, names, 3, len + j);
        i := 3 + len + j;
      }
    }
  }

  lemma {:induction false} ExtensionsSlice(data: bytes) returns (i: nat)
    requires ParseExtensions(data).Some?
    ensures SliceAt(ParseExtensions(data).value, data, i)
    decreases |data|
  {
    i := 0;
    if data != [] {
      var name, len, rest := ParseExtensions(data).value, Two(data[2..]), data[4..];
      if Two(data) == 0 {
        var j := NamesSlice(rest[..len][2..]);
        SliceLater(name, rest[..len], 2, j);
        SliceLonger(name, rest, len, 2 + j);
        SliceLater(name, data, 4, 2 + j);
        i := 6 + j;
      } else {
        var j := ExtensionsSlice(rest[len..]);
        SliceLater(name, rest, len, j);
        SliceLater(name, data, 4, len + j);
        i := 4 + len + j;
      }
    }
  }

  lemma TailSlice(data: bytes) returns (i: nat)
    requires ParseTail(data).Some?
    ensures SliceAt(ParseTail(data).value, data, i)
  {
    i := 0;
    if data != [] {
      var j := ExtensionsSlice(data[2..]);
      SliceLater(ParseTail(data).value, data, 2, j);
      i := 2 + j;
    }
  }

  lemma CiphersSlice(data: bytes) returns (i: nat)
    requires ParseCiphers(data).Some?
    ensures i >= 3 && SliceAt(ParseCiphers(data).value, data, i)
  {
    var name, rest := ParseCiphers(data).value, data[2 + Two(data)..];
    var k := 1 + rest[0] as nat;
    var j := TailSlice(rest[k..]);
    SliceLater(name, rest, k, j);
    SliceLater(name, data, 2 + Two(data), k + j);
    i := 2 + Two(data) + k + j;
  }

  /** Whatever the bytes, a name the parser returns is literally part of the message, past the fixed
      fields and in lower case. */
  lemma NameComesFromMessage(msg: bytes) returns (i: nat)
    requires Parse(msg).Some?
    ensures i >= 42 && SliceAt(Parse(msg).value, msg, i)
    ensures forall j :: 0 <= j < |Parse(msg).value| ==>
              Parse(msg).value[j] == if 65 <= msg[i + j] <= 90 then msg[i + j] + 32 else msg[i + j]
  {
    var k := 39 + msg[38] as nat;
    var j := CiphersSlice(msg[k..]);
    SliceLater(Parse(msg).value, msg, k, j);
    i := k + j;
    hide Parse;
    SliceBytes(Parse(msg).value, msg, i);
  }

  lemma SliceBytes(name: bytes, data: bytes, i: nat)
    requires SliceAt(name, data, i)
    ensures i + |name| <= |data|
    ensures forall j :: 0 <= j < |name| ==> name[j] == if 65 <= data[i + j] <= 90 then data[i + j] + 32 else data[i + j]
  {
  }

  // ---- the record header ----

  datatype SizeError = TooShort | NotHandshake | BadRecordLength | NotClientHello | BadHelloLength

  datatype Size = Ok(size: nat) | Err(error: SizeError)

  /** How much to read, decided from the first nine bytes. */
  function BufferSize(data: bytes): (r: Size)
  {
    if |data| < 9 then Err(TooShort)
    else if data[0] != 0x16 then Err(NotHandshake)
    else
      var recordLength := data[3] as nat * 0x100 + data[4] as nat;
      if recordLength == 0 || recordLength > 16384 then Err(BadRecordLength)
      else if data[5] != 0x01 then Err(NotClientHello)
      else
        var handshakeLength := data[6] * 0x1_0000 + data[7] as nat * 0x100 + data[8] as nat;
        if handshakeLength == 0 || handshakeLength > Minus(recordLength, 4) then Err(BadHelloLength)
        else Ok(handshakeLength + 9)
  }

  /** The buffer never exceeds the record it announces, nor 16389 bytes, and always has room for
      the header read so far and at least one byte more. */
  lemma BufferSizeBounded(data: bytes)
    requires BufferSize(data).Ok?
    ensures 10 <= BufferSize(data).size <= data[3] as nat * 0x100 + data[4] as nat + 5 <= 16389
  {
  }

  /** A record that carries exactly this handshake message. */
  function EncodeRecord(version: nat, msg: bytes): bytes
    requires version < 0x1_0000 && |msg| < 0x1_0000
  {
    [0x16] + Be2(version) + Be2(|msg|) + msg
  }

  /** From the wire to the name: a ClientHello in one record is read completely exactly when it is at
      most 16384 bytes long, and then the bytes after the record header give its server name. */
  lemma RecordRoundTrip(version: nat, h: Hello)
    requires WellFormed(h) && h.handshakeType == 1 && version < 0x1_0000
    requires |EncodeBody(h)| + 4 < 0x1_0000
    ensures var wire := EncodeRecord(version, EncodeHello(h));
            && (BufferSize(wire[..9]).Ok? <==> |EncodeHello(h)| <= 16384)
            && (BufferSize(wire[..9]).Ok? ==>
                  BufferSize(wire[..9]).size == |wire| && Parse(wire[5..]) == Some(ServerNameOf(h)))
  {
    var msg := EncodeHello(h);
    assert msg[0] == 1 && msg[1..4] == Be3(|msg| - 4);
    RecordSize(version, msg);
    Cut([0x16] + Be2(version) + Be2(|msg|), msg);
    HelloRoundTrip(h);
  }

  lemma RecordSize(version: nat, msg: bytes)
    requires version < 0x1_0000 && 5 <= |msg| < 0x1_0000
    requires msg[0] == 1 && msg[1..4] == Be3(|msg| - 4)
    ensures BufferSize(EncodeRecord(version, msg)[..9]) ==
              if |msg| <= 16384 then Ok(|EncodeRecord(version, msg)|) else Err(BadRecordLength)
  {
    var d := EncodeRecord(version, msg)[..9];
    var head := [0x16] + Be2(version) + Be2(|msg|);
    assert |head| == 5 && d == head + msg[..4];
    assert d[3] == head[3] == Be2(|msg|)[0] && d[4] == head[4] == Be2(|msg|)[1];
    assert d[5] == msg[0] && d[6] == msg[1] && d[7] == msg[2] && d[8] == msg[3];
    assert msg[1] == msg[1..4][0] && msg[2] == msg[1..4][1] && msg[3] == msg[1..4][2];
  }
}
