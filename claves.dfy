/**
  The client library (claves/claves.c). Every operation checks its arguments,
  connects (module Connect), writes its request line into the global
  `buffer`, sends it, reads the reply line back into `buffer`, and turns it
  into results.

  Sockets are replaced by a `Network` value: what `socket()`, the environment
  lookup, each `connect()`, `sendMessage` and `readLine` answer during the
  call. Each operation also returns the connection set-up it ran (`None` when
  it returned before connecting) and the line it handed to `sendMessage`
  (`None` when it sent nothing).
 */
module Claves {
  import opened Wire
  import Connect

  /** The longest value1 accepted, in bytes (claves/claves.c:151). */
  const MAX_VALUE1: nat := 256
  /** The longest vector accepted (claves/claves.c:156). */
  const MAX_N_VALUE2: nat := 32

  /** What the operating system and the server answer during one call. */
  datatype Network = Network(
    socketOk: bool,                 // socket() succeeds
    envOk: bool,                    // PORT_TUPLAS and IP_TUPLAS are set
    attempts: seq<Connect.Attempt>, // each connect(), in order
    sendOk: bool,                   // sendMessage succeeds
    reply: Option<string>)          // the line readLine stores; None when it fails

  /** The network supplies an outcome for every connect() the loop may make. */
  predicate Enough(net: Network, maxRetries: nat) {
    net.socketOk && net.envOk ==> Connect.EnoughAttempts(net.attempts, maxRetries)
  }

  function Dial(net: Network, maxRetries: nat): (c: Connect.Connection)
    requires Enough(net, maxRetries)
  {
    Connect.Establish(net.socketOk, net.envOk, net.attempts, maxRetries)
  }

  /**
    The argument checks of set_value and modify_value (claves/claves.c:146-158,
    282-294): neither argument NULL, `strlen(value1)` (its UTF-8 bytes before
    the first NUL) at most 256, 1 <= N <= 32.
   */
  predicate ValidTuple(value1: Option<string>, nValue2: int, vValue2: Option<seq<Double>>): (ok: bool)
    ensures ok ==> value1.Some? && vValue2.Some? && 1 <= nValue2 <= MAX_N_VALUE2
    ensures ok ==> |CStr(value1.value)| <= MAX_VALUE1
    ensures value1.Some? && vValue2.Some? && 1 <= nValue2 <= MAX_N_VALUE2 && 4 * |CStr(value1.value)| <= MAX_VALUE1 ==> ok
  {
    value1.Some? && vValue2.Some? && Strlen(value1.value) <= MAX_VALUE1 && 1 <= nValue2 <= MAX_N_VALUE2
  }

  /** 200 copies of U+00E9 are 200 characters but 400 bytes: set_value refuses them. */
  lemma {:induction false} TwoByteValue1Refused(nValue2: int, vValue2: seq<Double>)
    ensures !ValidTuple(Some(seq(200, _ => 0xE9 as char)), nValue2, Some(vValue2))
  {
    var s := seq(200, _ => 0xE9 as char);
    assert '\0' !in s by {
      forall i | 0 <= i < |s| ensures s[i] != '\0' { }
    }
    CStrOfNulFree(s);
    Utf8BytesRepeated(0xE9 as char, 200);
  }

  /** Whatever follows a NUL in value1 is neither measured nor sent: only "a" counts. */
  lemma {:induction false} TextAfterNulIgnored(tail: string)
    ensures CStr("a" + "\0" + tail) == "a"
    ensures ValidTuple(Some("a" + "\0" + tail), 1, Some(["0"]))
  {
    var s := "a" + "\0" + tail;
    assert s[1..] == "\0" + tail;
  }

  /** The caller's vector holds the N doubles the request reads from it. */
  predicate VectorReadable(nValue2: int, vValue2: Option<seq<Double>>) {
    vValue2.Some? && 1 <= nValue2 <= MAX_N_VALUE2 ==> nValue2 <= |vValue2.value|
  }

  /** Request tokens of init (claves/claves.c:111): the op code alone. */
  function InitTokens(): seq<string>
  {
    [IntToString(INIT)]
  }

  /** Request tokens of get_value, delete_key and exist: `op key`. */
  function KeyTokens(op: int, key: int): seq<string>
  {
    [IntToString(op), IntToString(key)]
  }

  /** Request tokens of set_value and modify_value: `op key value1 N v0 ... vN-1`. */
  function TupleTokens(op: int, key: int, value1: string, nValue2: nat, vValue2: seq<Double>): seq<string>
    requires nValue2 <= |vValue2|
  {
    [IntToString(op), IntToString(key), value1, IntToString(nValue2)] + vValue2[..nValue2]
  }

  /** The result of a status exchange: atoi of the reply, -1 when sending or receiving fails. */
  function StatusOf(net: Network): int
  {
    if net.sendOk && net.reply.Some? then Atoi(net.reply.value) else -1
  }

  /** The buffer after a status exchange of `line`: cleared once a reply was read, else still the request. */
  function BufferAfter(net: Network, line: string): string
  {
    if net.sendOk && net.reply.Some? then "" else line
  }

  /** `sprintf("%s %s %s %s")` lays out four tokens as Join does. */
  lemma JoinFour(a: string, b: string, c: string, d: string)
    ensures Join([a, b, c, d]) == a + " " + b + " " + c + " " + d
  {
    assert [a, b, c, d][1..] == [b, c, d] && [b, c, d][1..] == [c, d] && [c, d][1..] == [d];
    assert Join([c, d]) == c + " " + d;
    assert Join([b, c, d]) == b + " " + (c + " " + d);
    assert Join([a, b, c, d]) == a + " " + (b + " " + (c + " " + d));
  }

  // ---------------------------------------------------------------------------
  // The get_value reply
  // ---------------------------------------------------------------------------

  /** The caller's output locations of get_value: value1, *N_value2 and V_value2. */
  datatype GetOutputs = GetOutputs(value1: string, nValue2: int, vValue2: seq<Double>)

  datatype Decoded = Decoded(res: int, outputs: GetOutputs)

  /**
    A reply get_value can walk without strtok returning NULL and without
    writing past the caller's vector: a status token, and unless the status
    is -1, value1, N and N doubles, with N fitting in `capacity`.
   */
  predicate GetReplyReadable(toks: seq<Word>, capacity: nat) {
    |toks| >= 1 &&
    (Atoi(toks[0]) != -1 ==> |toks| >= 3 && Atoi(toks[2]) <= capacity && 3 + Atoi(toks[2]) <= |toks|)
  }

  /** The get_value reply walked token by token (claves/claves.c:243-270). */
  function DecodeGetReply(toks: seq<Word>, prior: GetOutputs): (d: Decoded)
    requires GetReplyReadable(toks, |prior.vValue2|)
    ensures d.res == Atoi(toks[0])
    ensures d.res == -1 ==> d.outputs == prior
    ensures d.res != -1 ==>
      d.outputs.value1 == toks[1] && d.outputs.nValue2 == Atoi(toks[2]) &&
      |d.outputs.vValue2| == |prior.vValue2| &&
      (forall i :: 0 <= i < d.outputs.nValue2 ==> d.outputs.vValue2[i] == toks[3 + i]) &&
      (forall i :: Max0(d.outputs.nValue2) <= i < |prior.vValue2| ==> d.outputs.vValue2[i] == prior.vValue2[i])
  {
    var res := Atoi(toks[0]);
    if res == -1 then Decoded(-1, prior)
    else
      var n := Atoi(toks[2]);
      Decoded(res, GetOutputs(toks[1], n, Overlay(prior.vValue2, toks[3..3 + Max0(n)])))
  }

  // ---------------------------------------------------------------------------
  // The library, with its global buffer
  // ---------------------------------------------------------------------------

  class Client {
    /** The global message buffer, as the C string it holds. */
    var buffer: string
    /** MAX_RETRIES of the connect loop. */
    const maxRetries: nat

    constructor (maxRetries: nat)
      ensures this.maxRetries == maxRetries && buffer == ""
    {
      this.maxRetries := maxRetries;
      buffer := "";
    }

    /** Send the buffer, read the reply into it, close, atoi the reply, clear the buffer. */
    method Exchange(net: Network) returns (res: int)
      modifies this`buffer
      ensures res == StatusOf(net)
      ensures buffer == BufferAfter(net, old(buffer))
    {
      if !net.sendOk {
        return -1;
      }
      if net.reply.None? {
        return -1;
      }
      buffer := net.reply.value;
      res := Atoi(buffer);
      buffer := "";
    }

    /** init (claves/claves.c:101-136). */
    method Init(net: Network) returns (res: int, conn: Connect.Connection, sent: Option<string>)
      requires Enough(net, maxRetries)
      modifies this`buffer
      ensures conn == Dial(net, maxRetries)
      ensures conn.code < 0 ==> res == conn.code && sent == None && buffer == old(buffer)
      ensures conn.code == 0 ==>
        sent == Some(Join(InitTokens())) && res == StatusOf(net) && buffer == BufferAfter(net, Join(InitTokens()))
    {
      conn := Connect.EstablishSocketConnection(net.socketOk, net.envOk, net.attempts, maxRetries);
      if conn.code < 0 {
        return conn.code, conn, None;
      }
      buffer := IntToString(INIT);
      sent := Some(buffer);
      res := Exchange(net);
    }

    /**
      The request line of set_value and modify_value: `sprintf(buffer, "%d %d %s %d")`
      followed by one `sprintf(buffer + strlen(buffer), " %lf")` per double
      (claves/claves.c:170-175, 306-311).
     */
    method WriteTuple(op: int, key: int, value1: string, nValue2: nat, vValue2: seq<Double>)
      requires nValue2 <= |vValue2|
      modifies this`buffer
      ensures buffer == Join(TupleTokens(op, key, value1, nValue2, vValue2))
    {
      buffer := IntToString(op) + " " + IntToString(key) + " " + value1 + " " + IntToString(nValue2);
      ghost var head := [IntToString(op), IntToString(key), value1, IntToString(nValue2)];
      JoinFour(IntToString(op), IntToString(key), value1, IntToString(nValue2));
      assert head + vValue2[..0] == head;
      for i := 0 to nValue2
        invariant buffer == Join(head + vValue2[..i])
      {
        JoinSnoc(head + vValue2[..i], vValue2[i]);
        SnocSlice(head, vValue2, i);
        buffer := buffer + " " + vValue2[i];
      }
    }

    /** set_value and modify_value, which differ only in their op code. */
    method SendTuple(op: int, key: int, value1: Option<string>, nValue2: int, vValue2: Option<seq<Double>>, net: Network)
      returns (res: int, conn: Option<Connect.Connection>, sent: Option<string>)
      requires VectorReadable(nValue2, vValue2)
      requires Enough(net, maxRetries)
      modifies this`buffer
      ensures !ValidTuple(value1, nValue2, vValue2) ==>
        res == -1 && conn == None && sent == None && buffer == old(buffer)
      ensures ValidTuple(value1, nValue2, vValue2) ==> conn == Some(Dial(net, maxRetries))
      ensures ValidTuple(value1, nValue2, vValue2) && conn.value.code < 0 ==>
        res == conn.value.code && sent == None && buffer == old(buffer)
      ensures ValidTuple(value1, nValue2, vValue2) && conn.value.code == 0 ==>
        var line := Join(TupleTokens(op, key, CStr(value1.value), nValue2, vValue2.value));
        sent == Some(line) && res == StatusOf(net) && buffer == BufferAfter(net, line)
    {
      if value1.None? || vValue2.None? {
        return -1, None, None;
      }
      if Strlen(value1.value) > MAX_VALUE1 {
        return -1, None, None;
      }
      if nValue2 < 1 || nValue2 > MAX_N_VALUE2 {
        return -1, None, None;
      }
      var c := Connect.EstablishSocketConnection(net.socketOk, net.envOk, net.attempts, maxRetries);
      conn := Some(c);
      if c.code < 0 {
        return c.code, conn, None;
      }
      WriteTuple(op, key, CStr(value1.value), nValue2, vValue2.value);
      sent := Some(buffer);
      res := Exchange(net);
    }

    /** set_value (claves/claves.c:138-199). */
    method SetValue(key: int, value1: Option<string>, nValue2: int, vValue2: Option<seq<Double>>, net: Network)
      returns (res: int, conn: Option<Connect.Connection>, sent: Option<string>)
      requires VectorReadable(nValue2, vValue2)
      requires Enough(net, maxRetries)
      modifies this`buffer
      ensures !ValidTuple(value1, nValue2, vValue2) ==>
        res == -1 && conn == None && sent == None && buffer == old(buffer)
      ensures ValidTuple(value1, nValue2, vValue2) ==> conn == Some(Dial(net, maxRetries))
      ensures ValidTuple(value1, nValue2, vValue2) && conn.value.code < 0 ==>
        res == conn.value.code && sent == None && buffer == old(buffer)
      ensures ValidTuple(value1, nValue2, vValue2) && conn.value.code == 0 ==>
        var line := Join(TupleTokens(SET_VALUE, key, CStr(value1.value), nValue2, vValue2.value));
        sent == Some(line) && res == StatusOf(net) && buffer == BufferAfter(net, line)
    {
      res, conn, sent := SendTuple(SET_VALUE, key, value1, nValue2, vValue2, net);
    }

    /** modify_value (claves/claves.c:273-335). */
    method ModifyValue(key: int, value1: Option<string>, nValue2: int, vValue2: Option<seq<Double>>, net: Network)
      returns (res: int, conn: Option<Connect.Connection>, sent: Option<string>)
      requires VectorReadable(nValue2, vValue2)
      requires Enough(net, maxRetries)
      modifies this`buffer
      ensures !ValidTuple(value1, nValue2, vValue2) ==>
        res == -1 && conn == None && sent == None && buffer == old(buffer)
      ensures ValidTuple(value1, nValue2, vValue2) ==> conn == Some(Dial(net, maxRetries))
      ensures ValidTuple(value1, nValue2, vValue2) && conn.value.code < 0 ==>
        res == conn.value.code && sent == None && buffer == old(buffer)
      ensures ValidTuple(value1, nValue2, vValue2) && conn.value.code == 0 ==>
        var line := Join(TupleTokens(MODIFY_VALUE, key, CStr(value1.value), nValue2, vValue2.value));
        sent == Some(line) && res == StatusOf(net) && buffer == BufferAfter(net, line)
    {
      res, conn, sent := SendTuple(MODIFY_VALUE, key, value1, nValue2, vValue2, net);
    }

    /** delete_key and exist, which differ only in their op code. */
    method SendKey(op: int, key: int, net: Network) returns (res: int, conn: Connect.Connection, sent: Option<string>)
      requires Enough(net, maxRetries)
      modifies this`buffer
      ensures conn == Dial(net, maxRetries)
      ensures conn.code < 0 ==> res == conn.code && sent == None && buffer == old(buffer)
      ensures conn.code == 0 ==>
        sent == Some(Join(KeyTokens(op, key))) && res == StatusOf(net) && buffer == BufferAfter(net, Join(KeyTokens(op, key)))
    {
      conn := Connect.EstablishSocketConnection(net.socketOk, net.envOk, net.attempts, maxRetries);
      if conn.code < 0 {
        return conn.code, conn, None;
      }
      buffer := IntToString(op) + " " + IntToString(key);
      assert buffer == Join(KeyTokens(op, key));
      sent := Some(buffer);
      res := Exchange(net);
    }

    /** delete_key (claves/claves.c:337-371). */
    method DeleteKey(key: int, net: Network) returns (res: int, conn: Connect.Connection, sent: Option<string>)
      requires Enough(net, maxRetries)
      modifies this`buffer
      ensures conn == Dial(net, maxRetries)
      ensures conn.code < 0 ==> res == conn.code && sent == None && buffer == old(buffer)
      ensures conn.code == 0 ==>
        var line := Join(KeyTokens(DELETE_KEY, key));
        sent == Some(line) && res == StatusOf(net) && buffer == BufferAfter(net, line)
    {
      res, conn, sent := SendKey(DELETE_KEY, key, net);
    }

    /** exist (claves/claves.c:373-407). */
    method Exist(key: int, net: Network) returns (res: int, conn: Connect.Connection, sent: Option<string>)
      requires Enough(net, maxRetries)
      modifies this`buffer
      ensures conn == Dial(net, maxRetries)
      ensures conn.code < 0 ==> res == conn.code && sent == None && buffer == old(buffer)
      ensures conn.code == 0 ==>
        var line := Join(KeyTokens(EXIST, key));
        sent == Some(line) && res == StatusOf(net) && buffer == BufferAfter(net, line)
    {
      res, conn, sent := SendKey(EXIST, key, net);
    }

    /**
      The loop of get_value that strtoks `n` doubles into the caller's vector
      (claves/claves.c:262-265).
     */
    static method ReadDoubles(line: string, n: nat, vValue2: array<Double>)
      requires n <= vValue2.Length && n <= |Tokenize(line)|
      modifies vValue2
      ensures vValue2[..] == Overlay(old(vValue2[..]), Tokenize(line)[..n])
    {
      ghost var toks := Tokenize(line);
      ghost var prior := vValue2[..];
      var cursor := line;
      var i := 0;
      while i < n
        invariant 0 <= i <= n
        invariant Tokenize(cursor) == toks[i..]
        invariant vValue2[..] == Overlay(prior, toks[..i])
      {
        ghost var before := vValue2[..];
        TokenStep(cursor, toks, i);
        var token := NextToken(cursor);
        var w := token.value.0;
        vValue2[i] := w;
        assert vValue2[..] == before[i := w];
        OverlaySnoc(prior, toks[..i], w);
        assert toks[..i + 1] == toks[..i] + [w];
        cursor := token.value.1;
        i := i + 1;
      }
    }

    /** get_value reaches the point where it walks a reply. */
    predicate ReplyArrives(value1: Option<string>, vValue2: array?<Double>, net: Network)
      requires Enough(net, maxRetries)
    {
      value1.Some? && vValue2 != null && Dial(net, maxRetries).code == 0 && net.sendOk && net.reply.Some?
    }

    /**
      get_value (claves/claves.c:201-271). value1 and *N_value2 are passed in
      and handed back (value1Out, nValue2Out); V_value2 is the caller's array,
      written in place. `None` and `null` stand for NULL arguments.
     */
    method GetValue(key: int, value1: Option<string>, nValue2: int, vValue2: array?<Double>, net: Network)
      returns (res: int, value1Out: Option<string>, nValue2Out: int, conn: Option<Connect.Connection>, sent: Option<string>)
      requires Enough(net, maxRetries)
      requires ReplyArrives(value1, vValue2, net) ==> GetReplyReadable(Tokenize(net.reply.value), vValue2.Length)
      modifies this`buffer, vValue2
      ensures value1.None? || vValue2 == null ==>
        res == -1 && conn == None && sent == None && buffer == old(buffer)
      ensures value1.Some? && vValue2 != null ==> conn == Some(Dial(net, maxRetries))
      ensures value1.Some? && vValue2 != null && conn.value.code < 0 ==>
        res == conn.value.code && sent == None && buffer == old(buffer)
      ensures value1.Some? && vValue2 != null && conn.value.code == 0 ==>
        sent == Some(Join(KeyTokens(GET_VALUE, key)))
      ensures value1.Some? && vValue2 != null && conn.value.code == 0 && !(net.sendOk && net.reply.Some?) ==>
        res == -1 && buffer == Join(KeyTokens(GET_VALUE, key))
      ensures !ReplyArrives(value1, vValue2, net) ==>
        value1Out == value1 && nValue2Out == nValue2 && (vValue2 != null ==> vValue2[..] == old(vValue2[..]))
      ensures ReplyArrives(value1, vValue2, net) ==>
        var d := DecodeGetReply(Tokenize(net.reply.value), GetOutputs(value1.value, nValue2, old(vValue2[..])));
        res == d.res && value1Out == Some(d.outputs.value1) && nValue2Out == d.outputs.nValue2 &&
        vValue2[..] == d.outputs.vValue2 &&
        buffer == (if d.res == -1 then net.reply.value else "")
    {
      value1Out, nValue2Out := value1, nValue2;
      if value1.None? || vValue2 == null {
        return -1, value1Out, nValue2Out, None, None;
      }
      var c := Connect.EstablishSocketConnection(net.socketOk, net.envOk, net.attempts, maxRetries);
      conn := Some(c);
      if c.code < 0 {
        return c.code, value1Out, nValue2Out, conn, None;
      }
      buffer := IntToString(GET_VALUE) + " " + IntToString(key);
      assert buffer == Join(KeyTokens(GET_VALUE, key));
      sent := Some(buffer);
      if !net.sendOk {
        return -1, value1Out, nValue2Out, conn, sent;
      }
      if net.reply.None? {
        return -1, value1Out, nValue2Out, conn, sent;
      }
      buffer := net.reply.value;
      res, value1Out, nValue2Out := WalkGetReply(value1.value, nValue2, vValue2);
    }

    /**
      get_value's walk over the reply in `buffer` (claves/claves.c:243-270):
      strtok out the status; unless it is -1, strtok out value1, N and N
      doubles into the caller's outputs, then clear the buffer.
     */
    method WalkGetReply(value1: string, nValue2: int, vValue2: array<Double>)
      returns (res: int, value1Out: Option<string>, nValue2Out: int)
      requires GetReplyReadable(Tokenize(buffer), vValue2.Length)
      modifies this`buffer, vValue2
      ensures var d := DecodeGetReply(Tokenize(old(buffer)), GetOutputs(value1, nValue2, old(vValue2[..])));
        res == d.res && value1Out == Some(d.outputs.value1) && nValue2Out == d.outputs.nValue2 &&
        vValue2[..] == d.outputs.vValue2 &&
        buffer == (if d.res == -1 then old(buffer) else "")
    {
      value1Out, nValue2Out := Some(value1), nValue2;
      ghost var toks := Tokenize(buffer);
      TokenizeHead(buffer);
      var token := NextToken(buffer);
      res := Atoi(token.value.0);
      var cursor := token.value.1;
      if res == -1 {
        return;
      }
      TokenizeHead(cursor);
      token := NextToken(cursor);
      value1Out := Some(token.value.0);
      cursor := token.value.1;
      TokenizeHead(cursor);
      token := NextToken(cursor);
      nValue2Out := Atoi(token.value.0);
      cursor := token.value.1;
      assert Tokenize(cursor) == toks[3..];
      ReadDoubles(cursor, Max0(nValue2Out), vValue2);
      buffer := "";
    }
  }
}
