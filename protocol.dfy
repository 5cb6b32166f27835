/**
  The two ends of the wire together: what the server's parse makes of each
  request line the client library writes, which storage call it leads to,
  and what the client library makes of each reply line the server writes.
 */
module Protocol {
  import opened Wire
  import opened Servidor
  import Claves

  /**
    What a server request record holds after `line` has been read into it
    and parsed over `prior`: None when the line is refused.
   */
  function Received(line: string, prior: RequestFields): Option<RequestFields>
  {
    var toks := Tokenize(line);
    if Fits(toks, |prior.vValue2|) then Some(Positional(toks, prior)) else None
  }

  // ---------------------------------------------------------------------------
  // Requests: client encoder against server parser
  // ---------------------------------------------------------------------------

  /**
    A set_value / modify_value line whose value1 is a non-empty word without
    spaces parses back into its op, key, value1 and N, and its N doubles land
    in the first N slots of the server's vector.
   */
  lemma {:induction false} TupleRequestRoundTrip(op: int, key: int, value1: Word, n: nat, v: seq<Double>, prior: RequestFields)
    requires n <= |v| && n <= |prior.vValue2|
    ensures Received(Join(Claves.TupleTokens(op, key, value1, n, v)), prior)
         == Some(RequestFields(op, key, value1, n, Overlay(prior.vValue2, v[..n])))
  {
    var ws: seq<Word> := [IntToString(op), IntToString(key), value1, IntToString(n)] + v[..n];
    assert ws == Claves.TupleTokens(op, key, value1, n, v);
    TokenizeJoin(ws);
    AtoiIntToString(op);
    AtoiIntToString(key);
    AtoiIntToString(n);
    assert ws[4..] == v[..n];
  }

  /**
    Every set_value or modify_value call the client accepts, whose C string
    value1 is a non-empty word free of spaces, reaches the store of a server
    whose request vector holds 32 doubles as exactly one call of the matching
    operation with the same key, that value1, N and the first N doubles.
   */
  lemma {:induction false} TupleRequestReachesStore(op: int, key: int, value1: string, n: int, v: seq<Double>, prior: RequestFields)
    requires op == SET_VALUE || op == MODIFY_VALUE
    requires Claves.ValidTuple(Some(value1), n, Some(v)) && n <= |v| && IsWord(CStr(value1))
    requires |prior.vValue2| == Claves.MAX_N_VALUE2
    ensures Received(Join(Claves.TupleTokens(op, key, CStr(value1), n, v)), prior).Some?
    ensures var call := Dispatch(Received(Join(Claves.TupleTokens(op, key, CStr(value1), n, v)), prior).value);
      call.Some? && OpOf(call.value) == op && call.value.key == key && call.value.value1 == CStr(value1) &&
      call.value.nValue2 == n && call.value.vValue2[..n] == v[..n]
  {
    var w: Word := CStr(value1);
    TupleRequestRoundTrip(op, key, w, n, v, prior);
  }

  /**
    A value1 made of several words, joined by spaces, is sent as it is: the
    server's strtok splits it, so every word after the first pushes N and the
    doubles one token further along the line.
   */
  lemma {:induction false} SpacedValue1Tokens(op: int, key: int, words: seq<Word>, n: nat, v: seq<Double>)
    requires |words| > 0 && n <= |v|
    ensures Tokenize(Join(Claves.TupleTokens(op, key, Join(words), n, v)))
         == [IntToString(op), IntToString(key)] + words + [IntToString(n)] + v[..n]
  {
    var ws := SpacedValue1Line(op, key, words, n, v);
    TokenizeJoin(ws);
  }

  /** The line written for a space-joined value1 is the line of its words written as separate tokens. */
  lemma {:induction false} SpacedValue1Line(op: int, key: int, words: seq<Word>, n: nat, v: seq<Double>) returns (ws: seq<Word>)
    requires |words| > 0 && n <= |v|
    ensures ws == [IntToString(op), IntToString(key)] + words + [IntToString(n)] + v[..n]
    ensures Join(Claves.TupleTokens(op, key, Join(words), n, v)) == Join(ws)
  {
    var head: seq<string> := [IntToString(op), IntToString(key)];
    var tail: seq<string> := [IntToString(n)] + v[..n];
    assert Claves.TupleTokens(op, key, Join(words), n, v) == head + ([Join(words)] + tail);
    JoinNested(head, words, tail);
    ws := [IntToString(op), IntToString(key)] + words + [IntToString(n)] + v[..n];
    assert ws == head + (words + tail);
  }

  /** The five one-letter words of the value1 below, joined by spaces. */
  lemma FiveWords() returns (words: seq<Word>)
    ensures |words| == 5 && Join(words) == "a b c d e"
  {
    words := ["a", "b", "c", "d", "e"];
    assert words[1..][1..][1..][1..] == ["e"];
  }

  /** The client accepts value1 "a b c d e" with N = 32: nine bytes, no NUL. */
  lemma SpacedValue1Accepted(v: seq<Double>)
    ensures Claves.ValidTuple(Some("a b c d e"), Claves.MAX_N_VALUE2, Some(v))
  {
    AsciiStrlen("a b c d e");
  }

  /**
    With value1 "a b c d e" and N = 32 the server, whose vector holds 32
    doubles, finds 40 tokens: one past the room the vector leaves, so the
    unchecked parse writes slot 32.
   */
  lemma SpacedValue1Overruns(op: int, key: int, v: seq<Double>)
    requires |v| >= Claves.MAX_N_VALUE2
    ensures var toks := Tokenize(Join(Claves.TupleTokens(op, key, "a b c d e", Claves.MAX_N_VALUE2, v)));
      |toks| == 40 && !Fits(toks, Claves.MAX_N_VALUE2) && Claves.MAX_N_VALUE2 in SlotsWritten(toks)
  {
    var words := FiveWords();
    SpacedValue1Tokens(op, key, words, Claves.MAX_N_VALUE2, v);
    var toks := Tokenize(Join(Claves.TupleTokens(op, key, Join(words), Claves.MAX_N_VALUE2, v)));
    assert |toks| == 40;
    assert SlotsWritten(toks)[Claves.MAX_N_VALUE2] == Claves.MAX_N_VALUE2;
  }

  /** The init line sets only the op of the server's record, and leads to the init call. */
  lemma {:induction false} InitRequestSetsOnlyOp(prior: RequestFields)
    ensures Received(Join(Claves.InitTokens()), prior) == Some(prior.(op := INIT))
    ensures Dispatch(prior.(op := INIT)) == Some(InitCall)
  {
    var ws: seq<Word> := [IntToString(INIT)];
    assert ws == Claves.InitTokens();
    TokenizeJoin(ws);
    AtoiIntToString(INIT);
    assert Overlay(prior.vValue2, []) == prior.vValue2;
  }

  /**
    The `op key` line of get_value, delete_key and exist sets the op and the
    key and leaves value1, N and the vector as they were.
   */
  lemma {:induction false} KeyRequestSetsOpAndKey(op: int, key: int, prior: RequestFields)
    ensures Received(Join(Claves.KeyTokens(op, key)), prior) == Some(prior.(op := op, key := key))
  {
    var ws: seq<Word> := [IntToString(op), IntToString(key)];
    assert ws == Claves.KeyTokens(op, key);
    TokenizeJoin(ws);
    AtoiIntToString(op);
    AtoiIntToString(key);
    assert Overlay(prior.vValue2, []) == prior.vValue2;
  }

  /** get_value, delete_key and exist each reach their own storage call with the key sent. */
  lemma {:induction false} KeyRequestReachesStore(op: int, key: int, prior: RequestFields)
    requires op == GET_VALUE || op == DELETE_KEY || op == EXIST
    ensures Received(Join(Claves.KeyTokens(op, key)), prior).Some?
    ensures Dispatch(Received(Join(Claves.KeyTokens(op, key)), prior).value)
         == Some(if op == GET_VALUE then GetCall(key) else if op == DELETE_KEY then DeleteCall(key) else ExistCall(key))
  {
    KeyRequestSetsOpAndKey(op, key, prior);
    var fields := prior.(op := op, key := key);
    assert Received(Join(Claves.KeyTokens(op, key)), prior).value == fields;
    assert fields.op == op && fields.key == key;
  }

  /** The set_value / modify_value line with an empty value1 holds two spaces in a row after the key. */
  lemma {:induction false} EmptyValue1Line(op: int, key: int, n: nat, v: seq<Double>)
    requires 1 <= n <= |v|
    ensures Join(Claves.TupleTokens(op, key, "", n, v))
         == IntToString(op) + " " + (IntToString(key) + " " + (" " + Join([IntToString(n)] + v[..n])))
  {
    var tail := [IntToString(n)] + v[..n];
    var ws := Claves.TupleTokens(op, key, "", n, v);
    assert ws == [IntToString(op), IntToString(key), ""] + tail;
    assert ws[1..][1..] == [""] + tail && ([""] + tail)[1..] == tail;
    assert Join([""] + tail) == " " + Join(tail);
  }

  /** Putting three elements in front, one at a time or together. */
  lemma {:induction false} Prepend3<T>(a: T, b: T, c: T, d: seq<T>)
    ensures [a] + ([b] + ([c] + d)) == [a, b, c] + d
  {
  }

  /** The tokens the server finds in that line: the empty value1 has vanished. */
  lemma {:induction false} EmptyValue1Tokens(op: int, key: int, n: nat, v: seq<Double>)
    requires 1 <= n <= |v|
    ensures Tokenize(Join(Claves.TupleTokens(op, key, "", n, v)))
         == [IntToString(op), IntToString(key), IntToString(n)] + v[..n]
  {
    var opS, keyS := IntToString(op), IntToString(key);
    var tail: seq<Word> := [IntToString(n)] + v[..n];
    var j := Join(tail);
    var mid := " " + j;
    var rest := keyS + " " + mid;
    EmptyValue1Line(op, key, n, v);
    TokenizeWordThen(opS, rest);
    TokenizeWordThen(keyS, mid);
    TokenizeSpace(j);
    TokenizeJoin(tail);
    assert Tokenize(mid) == tail;
    assert Tokenize(rest) == [keyS] + tail;
    Prepend3(opS, keyS, IntToString(n), v[..n]);
  }

  /**
    The client accepts an empty value1, but the two spaces around it form a
    single delimiter on the server: N is read as value1, the first double as
    N, and the doubles move down one slot.
   */
  lemma {:induction false} EmptyValue1Shifts(op: int, key: int, n: nat, v: seq<Double>, prior: RequestFields)
    requires 1 <= n <= |v| && n <= |prior.vValue2|
    ensures n <= Claves.MAX_N_VALUE2 ==> Claves.ValidTuple(Some(""), n, Some(v))
    ensures Received(Join(Claves.TupleTokens(op, key, "", n, v)), prior)
         == Some(RequestFields(op, key, IntToString(n), Atoi(v[0]), Overlay(prior.vValue2, v[1..n])))
  {
    EmptyValue1Tokens(op, key, n, v);
    ShiftedFields(op, key, n, v, prior);
  }

  /** The server's record filled from the tokens `op key N v0 ... vN-1`. */
  lemma {:induction false} ShiftedFields(op: int, key: int, n: nat, v: seq<Double>, prior: RequestFields)
    requires 1 <= n <= |v| && n <= |prior.vValue2|
    ensures var toks := [IntToString(op), IntToString(key), IntToString(n)] + v[..n];
      Fits(toks, |prior.vValue2|) &&
      Positional(toks, prior) == RequestFields(op, key, IntToString(n), Atoi(v[0]), Overlay(prior.vValue2, v[1..n]))
  {
    var toks: seq<Word> := [IntToString(op), IntToString(key), IntToString(n)] + v[..n];
    AtoiIntToString(op);
    AtoiIntToString(key);
    assert toks[3] == v[0];
    assert toks[4..] == v[1..n];
  }

  // ---------------------------------------------------------------------------
  // Replies: server encoder against client decoder
  // ---------------------------------------------------------------------------

  /** A status reply, read back by the client, is the server's result code. */
  lemma {:induction false} StatusReplyRoundTrip(op: int, r: Response, net: Claves.Network)
    requires op != GET_VALUE
    requires net.sendOk && net.reply == Some(Join(ResponseTokens(op, r)))
    ensures Claves.StatusOf(net) == r.res
  {
    AtoiIntToString(r.res);
  }

  /** The client's strtok walk finds exactly the tokens of a GET reply whose value1 is a word. */
  lemma {:induction false} GetReplyTokens(r: Response) returns (ws: seq<Word>)
    requires Printable(GET_VALUE, r) && IsWord(r.value1)
    ensures ws == ResponseTokens(GET_VALUE, r) && Tokenize(Join(ResponseTokens(GET_VALUE, r))) == ws
  {
    var w: Word := r.value1;
    ws := [IntToString(r.res), w, IntToString(r.nValue2)] + r.vValue2[..Max0(r.nValue2)];
    TokenizeJoin(ws);
  }

  /** get_value's walk over the tokens `res value1 N v0 ... vN-1` of a successful reply. */
  lemma {:induction false} DecodeGetTokens(res: int, value1: Word, n: int, v: seq<Double>, prior: Claves.GetOutputs)
    requires res != -1 && Max0(n) <= |v| && n <= |prior.vValue2|
    ensures var toks := [IntToString(res), value1, IntToString(n)] + v[..Max0(n)];
      Claves.GetReplyReadable(toks, |prior.vValue2|) &&
      Claves.DecodeGetReply(toks, prior) == Claves.Decoded(res, Claves.GetOutputs(value1, n, Overlay(prior.vValue2, v[..Max0(n)])))
  {
    var toks: seq<Word> := [IntToString(res), value1, IntToString(n)] + v[..Max0(n)];
    AtoiIntToString(res);
    AtoiIntToString(n);
    assert toks[3..3 + Max0(n)] == v[..Max0(n)];
  }

  /**
    A successful GET reply whose value1 is a word without spaces, walked by
    get_value into a vector of at least N slots, gives back the server's
    result, value1 and N, and the N doubles in the first N slots.
   */
  lemma {:induction false} GetReplyRoundTrip(r: Response, prior: Claves.GetOutputs)
    requires Printable(GET_VALUE, r) && IsWord(r.value1) && r.res != -1
    requires r.nValue2 <= |prior.vValue2|
    ensures Claves.GetReplyReadable(Tokenize(Join(ResponseTokens(GET_VALUE, r))), |prior.vValue2|)
    ensures Claves.DecodeGetReply(Tokenize(Join(ResponseTokens(GET_VALUE, r))), prior)
         == Claves.Decoded(r.res, Claves.GetOutputs(r.value1, r.nValue2,
              Overlay(prior.vValue2, r.vValue2[..Max0(r.nValue2)])))
  {
    var ws := GetReplyTokens(r);
    DecodeGetTokens(r.res, r.value1, r.nValue2, r.vValue2, prior);
  }

  /** A failed GET reply leaves the caller's value1, N and vector exactly as they were, whatever follows the -1. */
  lemma {:induction false} GetFailureLeavesOutputs(r: Response, prior: Claves.GetOutputs)
    requires Printable(GET_VALUE, r) && r.res == -1
    ensures Claves.GetReplyReadable(Tokenize(Join(ResponseTokens(GET_VALUE, r))), |prior.vValue2|)
    ensures Claves.DecodeGetReply(Tokenize(Join(ResponseTokens(GET_VALUE, r))), prior) == Claves.Decoded(-1, prior)
  {
    var toks := ResponseTokens(GET_VALUE, r);
    var head: Word := IntToString(-1);
    assert toks[0] == head;
    assert Join(toks) == head + " " + Join(toks[1..]);
    TokenizeWordThen(head, Join(toks[1..]));
    AtoiIntToString(-1);
  }
}
