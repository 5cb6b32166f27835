/**
  The server's per-request logic (servidor.c): `parse_request` turns a
  received line into the fields of a `Request`, `process_request` calls the
  one storage operation the op code names and writes the reply line.

  The storage operations belong to another component and are not part of
  this model: a storage call is recorded as a `StoreCall` value, and what the
  store answers is an input (`Response`).
 */
module Servidor {
  import opened Wire

  /** The contents of a `Request` struct, without the client socket. */
  datatype RequestFields = RequestFields(op: int, key: int, value1: string, nValue2: int, vValue2: seq<Double>)

  /** Whether a line of this many tokens can be stored in a request whose vector holds `capacity` doubles. */
  predicate Fits(toks: seq<Word>, capacity: nat) {
    |toks| <= 4 + capacity
  }

  /** The `switch (i)` of parse_request: where token number `i` is stored (servidor.c:116-133). */
  function Assign(f: RequestFields, i: nat, tok: Word): (g: RequestFields)
    requires i < 4 || i - 4 < |f.vValue2|
    ensures |g.vValue2| == |f.vValue2|
    ensures i != 0 ==> g.op == f.op
    ensures i != 1 ==> g.key == f.key
    ensures i != 2 ==> g.value1 == f.value1
    ensures i != 3 ==> g.nValue2 == f.nValue2
    ensures i < 4 ==> g.vValue2 == f.vValue2
    ensures i >= 4 ==> g.vValue2[i - 4] == tok
    ensures i >= 4 ==> forall s :: 0 <= s < |f.vValue2| && s != i - 4 ==> g.vValue2[s] == f.vValue2[s]
  {
    match i
    case 0 => f.(op := Atoi(tok))
    case 1 => f.(key := Atoi(tok))
    case 2 => f.(value1 := tok)
    case 3 => f.(nValue2 := Atoi(tok))
    case _ => f.(vValue2 := f.vValue2[i - 4 := tok])
  }

  /** The fields after the parse loop has stored `toks`, one by one in order, over `prior`. */
  function Decode(toks: seq<Word>, prior: RequestFields): (r: RequestFields)
    requires Fits(toks, |prior.vValue2|)
    ensures |r.vValue2| == |prior.vValue2|
    ensures |toks| <= 4 ==> r.vValue2 == prior.vValue2
    ensures |toks| <= 2 ==> r.value1 == prior.value1
    ensures |toks| > 2 ==> r.value1 == toks[2]
    decreases |toks|
  {
    if toks == [] then prior
    else Assign(Decode(toks[..|toks| - 1], prior), |toks| - 1, toks[|toks| - 1])
  }

  /**
    The fields by token position: token 0 is the op, 1 the key, 2 value1, 3 N,
    and token k >= 4 is vector slot k - 4; a field whose position the line
    does not reach keeps its prior contents.
   */
  function Positional(toks: seq<Word>, prior: RequestFields): (r: RequestFields)
    requires Fits(toks, |prior.vValue2|)
  {
    RequestFields(
      if |toks| > 0 then Atoi(toks[0]) else prior.op,
      if |toks| > 1 then Atoi(toks[1]) else prior.key,
      if |toks| > 2 then toks[2] else prior.value1,
      if |toks| > 3 then Atoi(toks[3]) else prior.nValue2,
      Overlay(prior.vValue2, if |toks| > 4 then toks[4..] else []))
  }

  /** Storing the tokens one at a time is the same as storing each by its position. */
  lemma {:induction false} DecodeIsPositional(toks: seq<Word>, prior: RequestFields)
    requires Fits(toks, |prior.vValue2|)
    ensures Decode(toks, prior) == Positional(toks, prior)
    decreases |toks|
  {
    if toks != [] {
      DecodeIsPositional(toks[..|toks| - 1], prior);
      PositionalSnoc(toks, prior);
    }
  }

  /** The positional fields of a line are those of the line without its last token, plus that token stored. */
  lemma PositionalSnoc(toks: seq<Word>, prior: RequestFields)
    requires toks != [] && Fits(toks, |prior.vValue2|)
    ensures Positional(toks, prior) == Assign(Positional(toks[..|toks| - 1], prior), |toks| - 1, toks[|toks| - 1])
  {
    var n := |toks|;
    var init := toks[..n - 1];
    assert forall k :: 0 <= k < n - 1 ==> init[k] == toks[k];
    if n > 4 {
      var xs := if n - 1 > 4 then init[4..] else [];
      assert xs == toks[4..n - 1];
      assert toks[4..] == xs + [toks[n - 1]];
      OverlaySnoc(prior.vValue2, xs, toks[n - 1]);
    }
  }

  /** Storing one more token extends the decoded prefix by one assignment. */
  lemma DecodeSnoc(toks: seq<Word>, i: nat, prior: RequestFields)
    requires i < |toks| && Fits(toks, |prior.vValue2|)
    ensures Decode(toks[..i + 1], prior) == Assign(Decode(toks[..i], prior), i, toks[i])
  {
    assert toks[..i + 1][..i] == toks[..i];
  }

  /**
    The vector slots parse_request as written stores into (servidor.c:130-131):
    one for every token past the fourth, with no bound on the index.
   */
  function SlotsWritten(toks: seq<Word>): seq<int>
  {
    seq(Max0(|toks| - 4), k => k)
  }

  /** Every slot written lies inside a vector of `capacity` doubles exactly when the line fits. */
  lemma SlotsWithinCapacity(toks: seq<Word>, capacity: nat)
    ensures (forall s :: s in SlotsWritten(toks) ==> 0 <= s < capacity) <==> Fits(toks, capacity)
  {
    if !Fits(toks, capacity) {
      var last := |toks| - 5;
      assert SlotsWritten(toks)[last] == last;
      assert last in SlotsWritten(toks) && !(last < capacity);
    } else {
      forall s | s in SlotsWritten(toks) ensures 0 <= s < capacity {
        var k :| 0 <= k < |SlotsWritten(toks)| && SlotsWritten(toks)[k] == s;
      }
    }
  }

  /** The slots counted as written are 0 up to the number of tokens past the fourth. */
  lemma SlotsWrittenRange(toks: seq<Word>)
    ensures forall s :: s in SlotsWritten(toks) <==> 0 <= s && 4 + s < |toks|
  {
    forall s | 0 <= s && 4 + s < |toks| ensures s in SlotsWritten(toks) {
      assert SlotsWritten(toks)[s] == s;
    }
  }

  /**
    SlotsWritten are exactly the vector slots the parse loop stores into:
    after the loop, slot s holds token 4 + s when s is listed, and its
    prior contents otherwise.
   */
  lemma SlotsWrittenAreStored(toks: seq<Word>, prior: RequestFields)
    requires Fits(toks, |prior.vValue2|)
    ensures forall s :: 0 <= s < |prior.vValue2| ==>
      Decode(toks, prior).vValue2[s] == (if s in SlotsWritten(toks) then toks[4 + s] else prior.vValue2[s])
  {
    DecodeIsPositional(toks, prior);
    SlotsWrittenRange(toks);
  }

  /** A request line one double longer than the vector can hold. */
  function OverrunLine(capacity: nat): string
  {
    Join(["1", "0", "v", "1"] + seq(capacity + 1, _ => "0"))
  }

  /**
    parse_request as written writes one slot past the end of a vector of
    `capacity` doubles when given `OverrunLine(capacity)`; the parse below
    refuses that line instead.
   */
  lemma OverrunWitness(capacity: nat)
    ensures capacity in SlotsWritten(Tokenize(OverrunLine(capacity)))
    ensures !Fits(Tokenize(OverrunLine(capacity)), capacity)
  {
    var toks: seq<Word> := ["1", "0", "v", "1"] + seq(capacity + 1, _ => "0");
    TokenizeJoin(toks);
    assert SlotsWritten(toks)[capacity] == capacity;
  }

  // ---------------------------------------------------------------------------
  // The request record the parse fills in place
  // ---------------------------------------------------------------------------

  class Request {
    var op: int
    var key: int
    var value1: string
    var nValue2: int
    const vValue2: array<Double>

    function Fields(): RequestFields
      reads this, vValue2
    {
      RequestFields(op, key, value1, nValue2, vValue2[..])
    }

    /** A request record whose vector holds `capacity` doubles. */
    constructor (capacity: nat)
      ensures fresh(vValue2) && vValue2.Length == capacity
    {
      op, key, value1, nValue2 := 0, 0, "", 0;
      vValue2 := new Double[capacity](_ => "0");
    }

    /** The `switch (i)` of parse_request: store token number `i` by its position (servidor.c:116-133). */
    method Store(i: nat, w: Word)
      requires i < 4 || i - 4 < vValue2.Length
      modifies this, vValue2
      ensures Fields() == Assign(old(Fields()), i, w)
    {
      match i
      case 0 => op := Atoi(w);
      case 1 => key := Atoi(w);
      case 2 => value1 := w;
      case 3 => nValue2 := Atoi(w);
      case _ => vValue2[i - 4] := w;
    }

    /**
      parse_request (servidor.c:104-140), with the bound check it lacks: a
      line with more tokens than the record can hold is refused with -1 and
      nothing is stored; otherwise every token is stored by its position and
      the result is 0.
     */
    method Parse(line: string) returns (status: int)
      modifies this, vValue2
      ensures status == 0 || status == -1
      ensures status == 0 <==> Fits(Tokenize(line), vValue2.Length)
      ensures status == 0 ==> Fields() == Positional(Tokenize(line), old(Fields()))
      ensures status == -1 ==> Fields() == old(Fields())
    {
      var toks := Tokenize(line);
      if |toks| > 4 + vValue2.Length {
        return -1;
      }
      ghost var prior := Fields();
      var i := 0;
      var cursor := line;
      var token := NextToken(cursor);
      TokenizeHead(cursor);
      while token.Some?
        invariant token == NextToken(cursor)
        invariant i <= |toks| && Tokenize(cursor) == toks[i..]
        invariant Fields() == Decode(toks[..i], prior)
        decreases |cursor|
      {
        TokenizeHead(cursor);
        var w := token.value.0;
        cursor := token.value.1;
        assert w == toks[i];
        if |w| > 0 {
          Store(i, w);
        }
        DecodeSnoc(toks, i, prior);
        i := i + 1;
        token := NextToken(cursor);
      }
      TokenizeHead(cursor);
      assert toks[..i] == toks;
      DecodeIsPositional(toks, prior);
      status := 0;
    }
  }

  // ---------------------------------------------------------------------------
  // Dispatch and the reply line
  // ---------------------------------------------------------------------------

  /** One call of a storage operation, with the arguments process_request passes it. */
  datatype StoreCall =
    | InitCall
    | SetCall(key: int, value1: string, nValue2: int, vValue2: seq<Double>)
    | GetCall(key: int)
    | ModifyCall(key: int, value1: string, nValue2: int, vValue2: seq<Double>)
    | DeleteCall(key: int)
    | ExistCall(key: int)

  /** The op code a storage call serves. */
  function OpOf(c: StoreCall): int
  {
    match c
    case InitCall => INIT
    case SetCall(_, _, _, _) => SET_VALUE
    case GetCall(_) => GET_VALUE
    case ModifyCall(_, _, _, _) => MODIFY_VALUE
    case DeleteCall(_) => DELETE_KEY
    case ExistCall(_) => EXIST
  }

  /**
    The `switch (request_copy.op)` of process_request (servidor.c:50-74): the
    storage call a request leads to, none for an unknown op code.
   */
  function Dispatch(req: RequestFields): (call: Option<StoreCall>)
    ensures call.None? <==> !IsOpCode(req.op)
    ensures call.Some? ==> OpOf(call.value) == req.op
    ensures call.Some? && !call.value.InitCall? ==> call.value.key == req.key
    ensures call.Some? && (call.value.SetCall? || call.value.ModifyCall?) ==>
      call.value.value1 == req.value1 && call.value.nValue2 == req.nValue2 && call.value.vValue2 == req.vValue2
  {
    if req.op == INIT then Some(InitCall)
    else if req.op == SET_VALUE then Some(SetCall(req.key, req.value1, req.nValue2, req.vValue2))
    else if req.op == GET_VALUE then Some(GetCall(req.key))
    else if req.op == MODIFY_VALUE then Some(ModifyCall(req.key, req.value1, req.nValue2, req.vValue2))
    else if req.op == DELETE_KEY then Some(DeleteCall(req.key))
    else if req.op == EXIST then Some(ExistCall(req.key))
    else None
  }

  /** The `Response` struct: the result code and, for GET, the tuple the store filled in. */
  datatype Response = Response(res: int, value1: string, nValue2: int, vValue2: seq<Double>)

  /** The store's answer holds at least the N doubles the reply will print. */
  predicate Printable(op: int, r: Response) {
    op == GET_VALUE ==> r.nValue2 <= |r.vValue2|
  }

  /** The tokens of the reply line: `res value1 N v0 ... vN-1` for GET, `res` otherwise. */
  function ResponseTokens(op: int, r: Response): (ts: seq<string>)
    requires Printable(op, r)
    ensures |ts| > 0 && ts[0] == IntToString(r.res)
    ensures op != GET_VALUE ==> |ts| == 1
    ensures op == GET_VALUE ==> |ts| == 3 + Max0(r.nValue2) && ts[1] == r.value1 && ts[2] == IntToString(r.nValue2)
  {
    if op == GET_VALUE then
      [IntToString(r.res), r.value1, IntToString(r.nValue2)] + r.vValue2[..Max0(r.nValue2)]
    else
      [IntToString(r.res)]
  }

  /** The reply line as process_request writes it into its buffer (servidor.c:81-93). */
  method EncodeResponse(op: int, r: Response) returns (line: string)
    requires Printable(op, r)
    ensures line == Join(ResponseTokens(op, r))
  {
    if op == GET_VALUE {
      line := IntToString(r.res) + " " + r.value1 + " " + IntToString(r.nValue2);
      var head := [IntToString(r.res), r.value1, IntToString(r.nValue2)];
      assert head[1..] == [r.value1, IntToString(r.nValue2)];
      assert head[1..][1..] == [IntToString(r.nValue2)];
      assert Join(head[1..]) == r.value1 + " " + IntToString(r.nValue2);
      assert line == Join(head);
      assert head + r.vValue2[..0] == head;
      var i := 0;
      while i < r.nValue2
        invariant 0 <= i <= Max0(r.nValue2)
        invariant line == Join(head + r.vValue2[..i])
      {
        JoinSnoc(head + r.vValue2[..i], r.vValue2[i]);
        assert head + r.vValue2[..i + 1] == (head + r.vValue2[..i]) + [r.vValue2[i]];
        line := line + " " + r.vValue2[i];
        i := i + 1;
      }
    } else {
      line := IntToString(r.res);
    }
  }

  /**
    process_request (servidor.c:37-102) without the hand-shake with the
    accept loop: the storage call made (at most one), the reply line sent,
    and -1 when sending it fails. `stored` is what the store answers.
   */
  method ProcessRequest(req: RequestFields, stored: Response, sendOk: bool)
    returns (status: int, call: Option<StoreCall>, line: string)
    requires Printable(req.op, stored)
    ensures call == Dispatch(req)
    ensures line == Join(ResponseTokens(req.op, if call.Some? then stored else stored.(res := -1)))
    ensures status == (if sendOk then 0 else -1)
  {
    var response := stored;
    if req.op == INIT {
      call := Some(InitCall);
    } else if req.op == SET_VALUE {
      call := Some(SetCall(req.key, req.value1, req.nValue2, req.vValue2));
    } else if req.op == GET_VALUE {
      call := Some(GetCall(req.key));
    } else if req.op == MODIFY_VALUE {
      call := Some(ModifyCall(req.key, req.value1, req.nValue2, req.vValue2));
    } else if req.op == DELETE_KEY {
      call := Some(DeleteCall(req.key));
    } else if req.op == EXIST {
      call := Some(ExistCall(req.key));
    } else {
      call := None;
      response := response.(res := -1);
    }
    line := EncodeResponse(req.op, response);
    status := if sendOk then 0 else -1;
  }

  /** What became of one accepted connection. */
  datatype Served =
    | Dropped                                                  // readLine failed
    | Refused                                                  // the line does not fit the request record
    | Answered(status: int, call: Option<StoreCall>, line: string)

  /**
    One pass of the accept loop after `accept` (servidor.c:218-242), run to
    completion: read the line, parse it into `req`, process it.
   */
  method ServeConnection(req: Request, received: Option<string>, stored: Response, sendOk: bool)
    returns (served: Served)
    requires received.Some? && Fits(Tokenize(received.value), req.vValue2.Length) ==>
      Printable(Positional(Tokenize(received.value), req.Fields()).op, stored)
    modifies req, req.vValue2
    ensures received.None? ==> served == Dropped && req.Fields() == old(req.Fields())
    ensures received.Some? && !Fits(Tokenize(received.value), req.vValue2.Length) ==>
      served == Refused && req.Fields() == old(req.Fields())
    ensures received.Some? && Fits(Tokenize(received.value), req.vValue2.Length) ==>
      var fields := Positional(Tokenize(received.value), old(req.Fields()));
      req.Fields() == fields && served.Answered? && served.call == Dispatch(fields) &&
      served.line == Join(ResponseTokens(fields.op, if served.call.Some? then stored else stored.(res := -1))) &&
      served.status == (if sendOk then 0 else -1)
  {
    if received.None? {
      return Dropped;
    }
    var parsed := req.Parse(received.value);
    if parsed == -1 {
      return Refused;
    }
    var status, call, line := ProcessRequest(req.Fields(), stored, sendOk);
    served := Answered(status, call, line);
  }
}
