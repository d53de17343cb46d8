/** Exactly which messages the server-name parser accepts, and with which name
    (src/proxy/tcp.rs, lines 726-811).  It stops at the first host name, so what follows is free. */
module ServerNameGrammar {
  import opened Prelude
  import opened ServerNames

  /** Entries of other kinds, then perhaps the first host_name and bytes that are never looked at. */
  datatype NameList = NameList(before: seq<Name>, host: Option<bytes>, rest: bytes)

  /** Other extensions, then perhaps the first server_name one and bytes that are never looked at. */
  datatype Extensions = Extensions(before: seq<Extension>, list: Option<NameList>, rest: bytes)

  /** `front` is the handshake header, the version and the random, which are not looked at. */
  datatype Accepted = Accepted(
    front: bytes,
    sessionId: bytes,
    cipherSuites: bytes,
    compressionMethods: bytes,
    extensions: Option<Extensions>)

  // ---- names ----

  predicate NamesFit(l: NameList) {
    && (forall n :: n in l.before ==> NameFits(n) && n.kind != 0)
    && (match l.host case Some(h) => |h| < 0x1_0000 case None => l.rest == [])
  }

  function WriteNames(l: NameList): bytes
    requires NamesFit(l)
  {
    EncodeNames(l.before) + if l.host.Some? then EncodeName(Name(0, l.host.value)) + l.rest else []
  }

  function HostOf(l: NameList): bytes {
    if l.host.Some? then LowerBytes(l.host.value) else []
  }

  lemma NameFirst(n: Name, m: NameList)
    requires NamesFit(m) && NameFits(n) && n.kind != 0
    ensures var l := m.(before := [n] + m.before); NamesFit(l) && WriteNames(l) == EncodeName(n) + WriteNames(m)
  {
    hide EncodeName;
    assert ([n] + m.before)[1..] == m.before;
  }

  lemma NoneBefore(l: NameList)
    requires NamesFit(l) && l.before == []
    ensures ParseNames(WriteNames(l)) == Some(HostOf(l))
  {
    if l.host.Some? {
      hide EncodeName, ParseNames;
      OneName(Name(0, l.host.value), l.rest);
      assert WriteNames(l) == EncodeName(Name(0, l.host.value)) + l.rest;
    }
  }

  lemma {:induction false} NamesAccepted(l: NameList)
    requires NamesFit(l)
    ensures ParseNames(WriteNames(l)) == Some(HostOf(l))
    decreases |l.before|
  {
    if l.before == [] {
      NoneBefore(l);
    } else {
      hide ParseNames, WriteNames, EncodeName, EncodeNames;
      var n, m := l.before[0], l.(before := l.before[1..]);
      NamesAccepted(m);
      OneName(n, WriteNames(m));
      NameFirst(n, m);
      assert l == m.(before := [n] + m.before);
    }
  }

  lemma Be2Writes(data: bytes)
    requires |data| >= 2
    ensures Two(data) < 0x1_0000 && data == Be2(Two(data)) + data[2..]
  {
  }

  /** The first entry of a list that is long enough. */
  lemma EntryWritten(names: bytes, len: nat)
    requires |names| >= 3 && len == Two(names[1..]) && |names| >= 3 + len
    ensures len < 0x1_0000
    ensures names == EncodeName(Name(names[0], names[3..][..len])) + names[3..][len..]
  {
    Be2Writes(names[1..]);
    assert names[1..][2..] == names[3..];
    var value, rest := names[3..][..len], names[3..][len..];
    assert names == [names[0]] + names[1..];
    assert names[3..] == value + rest;
  }

  lemma {:induction false} NamesWritten(names: bytes) returns (l: NameList)
    requires ParseNames(names).Some?
    ensures NamesFit(l) && WriteNames(l) == names
    decreases |names|
  {
    if names == [] {
      l := NameList([], None, []);
    } else {
      var len, rest := Two(names[1..]), names[3..];
      EntryWritten(names, len);
      if names[0] == 0 {
        l := NameList([], Some(rest[..len]), rest[len..]);
        assert WriteNames(l) == EncodeName(Name(0, rest[..len])) + rest[len..];
      } else {
        var n := Name(names[0], rest[..len]);
        var m := NamesWritten(rest[len..]);
        NameFirst(n, m);
        l := m.(before := [n] + m.before);
      }
    }
  }

  // ---- extensions ----

  predicate ExtensionsFit(x: Extensions) {
    && (forall e :: e in x.before ==> e.Other? && ExtensionFits(e))
    && (match x.list case Some(l) => NamesFit(l) && |WriteNames(l)| + 2 < 0x1_0000 case None => x.rest == [])
  }

  function WriteList(l: NameList): bytes
    requires NamesFit(l) && |WriteNames(l)| + 2 < 0x1_0000
  {
    Be2(|WriteNames(l)|) + WriteNames(l)
  }

  function WriteServerName(l: NameList): bytes
    requires NamesFit(l) && |WriteNames(l)| + 2 < 0x1_0000
  {
    Be2(0) + Be2(|WriteList(l)|) + WriteList(l)
  }

  function WriteExtensions(x: Extensions): bytes
    requires ExtensionsFit(x)
  {
    EncodeExtensions(x.before) + if x.list.Some? then WriteServerName(x.list.value) + x.rest else []
  }

  function NameIn(x: Extensions): bytes {
    if x.list.Some? then HostOf(x.list.value) else []
  }

  lemma ServerNameAccepted(l: NameList, rest: bytes)
    requires NamesFit(l) && |WriteNames(l)| + 2 < 0x1_0000
    ensures ParseExtensions(WriteServerName(l) + rest) == Some(HostOf(l))
  {
    Header(0, WriteList(l), rest);
    Cut(WriteList(l), rest);
    Be2Reads(|WriteNames(l)|, WriteNames(l));
    NamesAccepted(l);
  }

  lemma OtherFirst(e: Extension, y: Extensions)
    requires ExtensionsFit(y) && e.Other? && ExtensionFits(e)
    ensures var x := y.(before := [e] + y.before);
            ExtensionsFit(x) && WriteExtensions(x) == EncodeExtension(e) + WriteExtensions(y)
  {
    assert ([e] + y.before)[1..] == y.before;
  }

  lemma NoOtherBefore(x: Extensions)
    requires ExtensionsFit(x) && x.before == []
    ensures ParseExtensions(WriteExtensions(x)) == Some(NameIn(x))
  {
    if x.list.Some? {
      hide WriteServerName, ParseExtensions;
      ServerNameAccepted(x.list.value, x.rest);
      assert WriteExtensions(x) == WriteServerName(x.list.value) + x.rest;
    }
  }

  lemma {:induction false} ExtensionsAccepted(x: Extensions)
    requires ExtensionsFit(x)
    ensures ParseExtensions(WriteExtensions(x)) == Some(NameIn(x))
    decreases |x.before|
  {
    if x.before == [] {
      NoOtherBefore(x);
    } else {
      hide ParseExtensions, WriteExtensions, EncodeExtension, EncodeExtensions;
      var e, y := x.before[0], x.(before := x.before[1..]);
      ExtensionsAccepted(y);
      OneExtension(e, WriteExtensions(y));
      OtherFirst(e, y);
      assert x == y.(before := [e] + y.before);
    }
  }

  /** The first extension of data that is long enough. */
  lemma ExtensionWritten(data: bytes, len: nat)
    requires |data| >= 4 && len == Two(data[2..]) && |data| >= 4 + len
    ensures len < 0x1_0000 && Two(data) < 0x1_0000
    ensures data == Be2(Two(data)) + Be2(len) + data[4..][..len] + data[4..][len..]
  {
    Be2Writes(data);
    Be2Writes(data[2..]);
    assert data[2..][2..] == data[4..];
    assert data[4..] == data[4..][..len] + data[4..][len..];
  }

  lemma ListWritten(body: bytes) returns (l: NameList)
    requires ParseServerNameList(body).Some? && |body| < 0x1_0000
    ensures NamesFit(l) && |WriteNames(l)| + 2 < 0x1_0000 && WriteList(l) == body
  {
    Be2Writes(body);
    l := NamesWritten(body[2..]);
  }

  /** An extension of another kind, split off the data. */
  lemma OtherWritten(data: bytes) returns (e: Extension, rest: bytes)
    requires |data| >= 4 && Two(data) != 0 && |data| >= 4 + Two(data[2..])
    ensures e.Other? && ExtensionFits(e) && rest == data[4..][Two(data[2..])..] && data == EncodeExtension(e) + rest
  {
    var len := Two(data[2..]);
    ExtensionWritten(data, len);
    e, rest := Other(Two(data), data[4..][..len]), data[4..][len..];
  }

  /** The server_name extension, split off the data. */
  lemma ServerNameWritten(data: bytes) returns (l: NameList, rest: bytes)
    requires |data| >= 4 && Two(data) == 0 && |data| >= 4 + Two(data[2..])
    requires ParseServerNameList(data[4..][..Two(data[2..])]).Some?
    ensures NamesFit(l) && |WriteNames(l)| + 2 < 0x1_0000 && data == WriteServerName(l) + rest
  {
    var len := Two(data[2..]);
    ExtensionWritten(data, len);
    l := ListWritten(data[4..][..len]);
    rest := data[4..][len..];
  }

  lemma {:induction false} ExtensionsWritten(data: bytes) returns (x: Extensions)
    requires ParseExtensions(data).Some?
    ensures ExtensionsFit(x) && WriteExtensions(x) == data
    decreases |data|
  {
    if data == [] {
      x := Extensions([], None, []);
    } else {
      if Two(data) == 0 {
        var l, rest := ServerNameWritten(data);
        x := Extensions([], Some(l), rest);
        assert WriteExtensions(x) == WriteServerName(l) + rest;
      } else {
        var e, rest := OtherWritten(data);
        var y := ExtensionsWritten(rest);
        OtherFirst(e, y);
        x := y.(before := [e] + y.before);
      }
    }
  }

  // ---- the message ----

  predicate Fits(a: Accepted) {
    && |a.front| == 38 && |a.sessionId| <= 32
    && |a.cipherSuites| < 0x1_0000 && |a.cipherSuites| % 2 == 0
    && |a.compressionMethods| < 0x100
    && (a.extensions.Some? ==> ExtensionsFit(a.extensions.value) && |WriteExtensions(a.extensions.value)| < 0x1_0000)
  }

  function WriteTail(a: Accepted): bytes
    requires Fits(a)
  {
    match a.extensions
    case None => []
    case Some(x) => Be2(|WriteExtensions(x)|) + WriteExtensions(x)
  }

  function WriteAfterSession(a: Accepted): bytes
    requires Fits(a)
  {
    (Be2(|a.cipherSuites|) + a.cipherSuites) + ((Be1(|a.compressionMethods|) + a.compressionMethods) + WriteTail(a))
  }

  function Write(a: Accepted): bytes
    requires Fits(a)
  {
    a.front + (Be1(|a.sessionId|) + (a.sessionId + WriteAfterSession(a)))
  }

  function NameOf(a: Accepted): bytes {
    if a.extensions.Some? then NameIn(a.extensions.value) else []
  }

  lemma CiphersSkipped(ciphers: bytes, methods: bytes, tail: bytes)
    requires |ciphers| < 0x1_0000 && |ciphers| % 2 == 0 && |methods| < 0x100
    ensures ParseCiphers((Be2(|ciphers|) + ciphers) + ((Be1(|methods|) + methods) + tail)) == ParseTail(tail)
  {
    var rest := (Be1(|methods|) + methods) + tail;
    var all := (Be2(|ciphers|) + ciphers) + rest;
    assert all == Be2(|ciphers|) + (ciphers + rest);
    Be2Reads(|ciphers|, ciphers + rest);
    assert all[2 + |ciphers|..] == rest;
    assert rest[1 + |methods|..] == tail;
  }

  lemma WrittenIsAccepted(a: Accepted)
    requires Fits(a)
    ensures Parse(Write(a)) == Some(NameOf(a))
  {
    if a.extensions.Some? {
      var x := a.extensions.value;
      Be2Reads(|WriteExtensions(x)|, WriteExtensions(x));
      ExtensionsAccepted(x);
    }
    CiphersSkipped(a.cipherSuites, a.compressionMethods, WriteTail(a));
    SkipSession(a.front, a.sessionId, WriteAfterSession(a));
  }

  lemma TailWritten(data: bytes) returns (x: Option<Extensions>)
    requires ParseTail(data).Some?
    ensures x.None? ==> data == []
    ensures x.Some? ==> ExtensionsFit(x.value) && |WriteExtensions(x.value)| < 0x1_0000
                        && data == Be2(|WriteExtensions(x.value)|) + WriteExtensions(x.value)
  {
    if data == [] {
      x := None;
    } else {
      Be2Writes(data);
      var y := ExtensionsWritten(data[2..]);
      x := Some(y);
    }
  }

  lemma MethodsWritten(data: bytes) returns (methods: bytes, tail: bytes)
    requires ParseCompression(data).Some?
    ensures |methods| < 0x100 && data == (Be1(|methods|) + methods) + tail && ParseTail(tail).Some?
  {
    var k := data[0] as nat;
    methods, tail := data[1..1 + k], data[1 + k..];
    assert data == ([data[0]] + methods) + tail;
  }

  lemma CiphersWritten(data: bytes) returns (ciphers: bytes, rest: bytes)
    requires ParseCiphers(data).Some?
    ensures |ciphers| < 0x1_0000 && |ciphers| % 2 == 0 && data == (Be2(|ciphers|) + ciphers) + rest
    ensures ParseCompression(rest).Some?
  {
    var k := Two(data);
    Be2Writes(data);
    ciphers, rest := data[2..2 + k], data[2 + k..];
    assert data[2..] == ciphers + rest;
  }

  lemma Regrouped(msg: bytes, k: nat)
    requires 39 + k <= |msg| && msg[38] == k
    ensures msg == msg[..38] + (Be1(k) + (msg[39..39 + k] + msg[39 + k..]))
  {
    assert msg[39..] == msg[39..39 + k] + msg[39 + k..];
    assert msg == msg[..38] + ([msg[38]] + msg[39..]);
  }

  lemma SessionWritten(msg: bytes) returns (front: bytes, sessionId: bytes, rest: bytes)
    requires Parse(msg).Some?
    ensures |front| == 38 && |sessionId| <= 32 && msg == front + (Be1(|sessionId|) + (sessionId + rest))
    ensures ParseCiphers(rest).Some?
  {
    var k := msg[38] as nat;
    front, sessionId, rest := msg[..38], msg[39..39 + k], msg[39 + k..];
    hide Parse;
    Regrouped(msg, k);
  }

  lemma AcceptedIsWritten(msg: bytes) returns (a: Accepted)
    requires Parse(msg).Some?
    ensures Fits(a) && Write(a) == msg
  {
    var front, sessionId, rest := SessionWritten(msg);
    var ciphers, data := CiphersWritten(rest);
    var methods, tail := MethodsWritten(data);
    var x := TailWritten(tail);
    hide Parse, ParseCiphers, ParseCompression, ParseTail;
    a := Accepted(front, sessionId, ciphers, methods, x);
    assert WriteTail(a) == tail;
  }

  /** The message is written this way and carries this name. */
  ghost predicate Carries(msg: bytes, a: Accepted, name: bytes) {
    Fits(a) && Write(a) == msg && NameOf(a) == name
  }

  /** A message gives a name if and only if it has the form of a ClientHello up to that name: the name
      is the first host_name of its first server_name extension, in lower case, or empty when it runs
      to its end without one. */
  lemma AcceptsExactly(msg: bytes, name: bytes)
    ensures Parse(msg) == Some(name) <==> exists a :: Carries(msg, a, name)
  {
    if Parse(msg) == Some(name) {
      var a := AcceptedIsWritten(msg);
      WrittenIsAccepted(a);
      assert Carries(msg, a, name);
    } else if a :| Carries(msg, a, name) {
      WrittenIsAccepted(a);
      assert false;
    }
  }

  /** Lengths are written with their high byte first, in exactly one, two or three bytes. */
  lemma HighByteFirst(n: nat, data: bytes)
    ensures n < 0x100 ==> (Be1(n) == data <==> |data| == 1 && data[0] as nat == n)
    ensures n < 0x1_0000 ==> (Be2(n) == data <==> |data| == 2 && data[0] as nat * 256 + data[1] as nat == n)
    ensures n < 0x100_0000 ==>
              (Be3(n) == data <==> |data| == 3 && data[0] as nat * 65536 + data[1] as nat * 256 + data[2] as nat == n)
  {
    if |data| == 2 { Be2Writes(data); }
  }

  // ---- the record header ----

  /** The first nine bytes of a handshake record with a ClientHello: content type 22, any version, the
      record's length, message type 1 and the message's length. */
  ghost predicate Announces(data: bytes, record: nat, hello: nat) {
    && |data| >= 9 && data[0] == 22 && data[5] == 1
    && record == data[3] as nat * 256 + data[4] as nat
    && hello == data[6] as nat * 65536 + data[7] as nat * 256 + data[8] as nat
  }

  /** A buffer is given if and only if the header announces a message that fits into one record of at
      most 16384 bytes; it then holds the record up to the end of that message. */
  lemma BufferSizeExactly(data: bytes, size: nat)
    ensures BufferSize(data) == Ok(size) <==>
              exists record: nat, hello: nat ::
                Announces(data, record, hello) && 0 < record <= 16384 && 0 < hello && hello + 4 <= record && size == hello + 9
  {
    if |data| >= 9 {
      var record, hello := data[3] as nat * 256 + data[4] as nat, data[6] as nat * 65536 + data[7] as nat * 256 + data[8] as nat;
      assert Announces(data, record, hello) <==> data[0] == 22 && data[5] == 1;
    }
  }
}
