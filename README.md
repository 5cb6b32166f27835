# Tuple service wire protocol (client library and server request handling)

This project models the core of a small client/server key-value service in
which each key maps to a tuple (`value1`, a string, and `value2`, a vector of
1 to 32 doubles). The client library (`claves/claves.c`) offers `init`,
`set_value`, `get_value`, `modify_value`, `delete_key` and `exist`. Only
`set_value`, `modify_value` and `get_value` check their arguments. A call
that passes its checks connects to the server, retrying with exponential
backoff. It then writes one space-separated request line into a global
buffer, sends it, reads one reply line and decodes it. The server
(`servidor.c`) splits each request line with `strtok` into the fields of a
`Request` record (`parse_request`). `process_request` then calls the one
storage operation the op code names and writes the reply line: `res value1
N v0 ... vN-1` for GET, and the bare `res` for every other op.

Modules:

- `Wire` (wire.dfy) holds the shared text layer:
  - `strtok` over spaces (`NextToken`, `Tokenize`);
  - `sprintf` of space-separated tokens (`Join`);
  - `%d` (`IntToString`) and C `atoi` (`Atoi`);
  - the op codes.
  - Doubles are their printed tokens (`Double`: a non-empty word without spaces).
- `Connect` (connect.dfy): `establish_socket_connection` and its retry schedule.
- `Claves` (claves.dfy): the client library as a `Client` class.
  - The global `buffer` is a field.
  - The network's answers during a call are a `Network` value.
- `Servidor` (servidor.dfy): the server.
  - The `Request` class is filled in place by `Parse`.
  - It also holds the op dispatch (`Dispatch`, `ProcessRequest`) and the reply encoder.
- `Protocol` (protocol.dfy): the two ends together. It states round trips from the client encoder through the server parser to the store, and from the server encoder back through the client decoder.

## Model

| member | source | states |
|---|---|---|
| Wire.NextToken | servidor.c:111 | one `strtok(_, " ")` call: no token exactly when only spaces remain; otherwise a non-empty space-free word, and it resumes strictly later in the line |
| Wire.Tokenize | servidor.c:111-136 | the tokens of successive strtok calls, in order: none exactly when the line is all spaces, and at most (length + 1) / 2 of them, since each takes a character and a delimiter |
| Wire.TokenizeJoin | claves/claves.c:170-175 | splitting a line written with single spaces between words gives back exactly those words, in order |
| Wire.TokenizeWordThen | servidor.c:111 | a word followed by a space is returned as one token, and the walk carries on after the space |
| Wire.DoubleSpaceIsOneDelimiter | servidor.c:111 | a run of two spaces separates tokens exactly as one space does, so no empty token appears |
| Wire.JoinSnoc | claves/claves.c:173-175 | appending `" %s"` at the end of a line is the same as joining one more token |
| Wire.JoinDelimiters | claves/claves.c:170-175 | `Join`, the single-space concatenation sprintf writes, puts exactly n - 1 spaces into a line of n space-free tokens |
| Wire.JoinNested | claves/claves.c:170 | printing a value1 that itself holds words separated by single spaces gives the same line as printing those words as separate tokens |
| Wire.CStr | claves/claves.c:151 | the C string of a char array is its longest prefix without NUL: it stops at the first NUL, or at the end when there is none |
| Wire.CStrOfNulFree | claves/claves.c:170 | a string without NUL is printed by `%s` whole |
| Wire.Utf8Bytes | claves/claves.c:151 | a string of n characters takes between n and 4n bytes in UTF-8 |
| Wire.AsciiStrlen | claves/claves.c:151 | for ASCII text without NUL, `strlen` is the number of characters |
| Wire.IntToString | claves/claves.c:170 | the text `%d` prints is a non-empty word with no space |
| Wire.Atoi | servidor.c:119-128 | C `atoi`: after leading whitespace, text with no sign-and-digit or digit start reads as 0, and a negative result needs a leading `-` |
| Wire.AtoiIntToString | claves/claves.c:190 | C `atoi` reads back exactly the integer `%d` printed, negative numbers included |
| Wire.Overlay | claves/claves.c:262-265 | writing the first k slots of an array leaves its length and every later slot unchanged, and the first k slots hold the written values |
| Connect.Backoff | claves/claves.c:94 | the sleeps of the first k retries are 2^0, 2^1, ..., 2^(k-1) seconds |
| Connect.RetryFrom | claves/claves.c:71-96 | the connect loop ends with 0 or -2, after at most MAX_RETRIES + 2 connect calls |
| Connect.Establish | claves/claves.c:48-99 | -1 exactly when the socket or the environment lookup fails, with no connect call and no sleep; otherwise 0 or -2 |
| Connect.EstablishSocketConnection | claves/claves.c:48-99 | the loop as written returns what `Establish` describes: the same code, sleeps, number of connect calls and log lines |
| Connect.SucceedsAfterFailures | claves/claves.c:71-98 | k <= MAX_RETRIES + 1 failures then a success give 0, after sleeping 1, 2, ..., 2^(k-1) seconds, with k + 1 connect calls |
| Connect.GivesUpAfterBudget | claves/claves.c:71-98 | MAX_RETRIES + 2 consecutive failures give -2 on the last one, after MAX_RETRIES + 1 sleeps of doubling length |
| Connect.ErrnoOnlyChangesTheLog | claves/claves.c:83-95 | runs whose connects fail at the same places end alike (code, sleeps, number of calls), whatever the errno values |
| Connect.BackoffTotal | claves/claves.c:94-95 | the k backoff sleeps add up to 2^k - 1 seconds |
| Servidor.Assign | servidor.c:116-133 | the `switch (i)`: token 0 sets only op, 1 only key, 2 only value1, 3 only N, and token k >= 4 only vector slot k-4, every other field and slot unchanged |
| Servidor.Decode | servidor.c:112-137 | the loop storing the tokens one by one: the vector length is kept, a line of at most four tokens leaves the vector alone, and value1 is token 2 when the line reaches it |
| Servidor.DecodeIsPositional | servidor.c:111-137 | the loop's stores amount to: token 0 is op, 1 key, 2 value1, 3 N, token k >= 4 is slot k-4; a field the line does not reach keeps its prior value |
| Servidor.SlotsWithinCapacity | servidor.c:130-131 | every vector index the parse writes is inside the vector exactly when the line has at most 4 + capacity tokens |
| Servidor.SlotsWrittenAreStored | servidor.c:112-137 | after the parse loop, vector slot s holds token 4 + s exactly when s is among the slots counted as written, and keeps its prior contents otherwise |
| Servidor.OverrunWitness | servidor.c:130-131 | a SET line with one double more than the vector holds makes the parse as written write index `capacity`; the corrected parse refuses it |
| Servidor.Request.Store | servidor.c:116-133 | the switch stores token i into op, key, value1, N or vector slot i-4, and nothing else |
| Servidor.Request.Parse | servidor.c:104-140 | returns 0 exactly when the line fits the record, and then the record holds the line's fields by position over its previous contents; on -1 nothing is changed |
| Servidor.Dispatch | servidor.c:50-74 | an unknown op makes no storage call; a known op makes one call of its own operation, with the request's key, value1, N and vector |
| Servidor.ResponseTokens | servidor.c:82-93 | the reply tokens start with the result code; a non-GET reply is that code alone; a GET reply is code, value1, N and then exactly N doubles |
| Servidor.EncodeResponse | servidor.c:81-93 | the reply line is `res value1 N` then exactly N doubles for GET, and the bare `res` otherwise |
| Servidor.ProcessRequest | servidor.c:37-102 | makes the call `Dispatch` names; the reply encodes the store's answer, or -1 when no call was made; returns -1 exactly when sending fails |
| Servidor.ServeConnection | servidor.c:218-242 | a failed read drops the connection and leaves the record alone; a line that does not fit is refused; otherwise the record is parsed and the request processed |
| Claves.DecodeGetReply | claves/claves.c:243-270 | the result is the reply's status; on -1 the outputs are untouched; otherwise value1 is token 1, N is token 2, slot i holds token 3+i for i < N, and later slots are unchanged |
| Claves.Client.Exchange | claves/claves.c:113-135 | the result is atoi of the reply, or -1 when sending or reading fails; the buffer is cleared only after a reply was read |
| Claves.Client.Init | claves/claves.c:101-136 | a negative connect result is returned unchanged with nothing sent; otherwise the line sent is the op code alone |
| Claves.Client.WriteTuple | claves/claves.c:170-175 | the buffer holds `op key value1 N` followed by the first N doubles, each after one space, in index order |
| Claves.ValidTuple | claves/claves.c:146-158 | an accepted tuple has both arguments non-NULL, 1 <= N <= 32 and at most 256 characters before value1's first NUL; every such tuple of at most 64 characters is accepted |
| Claves.Client.SendTuple | claves/claves.c:138-199 | a NULL argument, a value1 whose `strlen` (UTF-8 bytes before its first NUL) exceeds 256, or N outside 1..32 gives -1 with no connection, nothing sent and the buffer untouched; a negative connect result is returned unchanged; otherwise the tuple line, holding value1 up to its first NUL, is sent and the status reply returned |
| Claves.Client.SetValue | claves/claves.c:138-199 | a NULL argument, a value1 whose `strlen` (UTF-8 bytes before its first NUL) exceeds 256, or N outside 1..32 gives -1 before connecting; a negative connect result is returned unchanged; otherwise the line sent is `SET_VALUE key value1 N` with value1 cut at its first NUL, then the first N doubles, and the result is atoi of the reply |
| Claves.Client.ModifyValue | claves/claves.c:273-335 | the same byte-length and NUL-aware checks and results as set_value, with the line starting with the MODIFY_VALUE code |
| Claves.TwoByteValue1Refused | claves/claves.c:150-153 | 200 copies of a two-byte character are 400 bytes, so set_value and modify_value refuse them although they are only 200 characters |
| Claves.TextAfterNulIgnored | claves/claves.c:151 | whatever follows a NUL in value1 is neither counted against the limit nor sent: `"a\0"` plus any text is accepted as `"a"` |
| Claves.Client.SendKey | claves/claves.c:337-407 | a negative connect result is returned unchanged with nothing sent; otherwise exactly the two tokens `op key` are sent, and the status reply is returned |
| Claves.Client.DeleteKey | claves/claves.c:337-371 | a negative connect result is returned unchanged with nothing sent; otherwise the line sent is `DELETE_KEY key`, and the result is atoi of the reply, or -1 when sending or reading fails |
| Claves.Client.Exist | claves/claves.c:373-407 | a negative connect result is returned unchanged with nothing sent; otherwise the line sent is `EXIST key`, and the result is atoi of the reply, or -1 when sending or reading fails |
| Claves.Client.ReadDoubles | claves/claves.c:262-265 | the loop stores the next n tokens into the first n slots of the vector and leaves the others |
| Claves.Client.WalkGetReply | claves/claves.c:243-270 | the strtok walk over the reply gives what `DecodeGetReply` describes; the buffer is cleared except on a -1 reply |
| Claves.Client.GetValue | claves/claves.c:201-271 | a NULL value1 or V_value2 gives -1 before connecting; a negative connect result is returned unchanged; `op key` is sent; a failed send or read gives -1 with outputs untouched; a reply is decoded as `DecodeGetReply` says |
| Protocol.TupleRequestRoundTrip | servidor.c:104-140 | the server parses a SET/MODIFY line, whose value1 is a word without spaces, back into op, key, value1 and N, with the N doubles in the first N slots |
| Protocol.TupleRequestReachesStore | servidor.c:50-74 | every tuple the client accepts whose C string value1 is a non-empty word without spaces reaches a server with a 32-slot vector as one call of the matching store operation with the same key, that value1, N and doubles |
| Protocol.SpacedValue1Tokens | servidor.c:111-136 | a value1 of several space-separated words reaches the server as that many tokens, pushing N and the doubles one position further per extra word |
| Protocol.SpacedValue1Accepted | claves/claves.c:146-158 | the client's argument checks accept value1 `a b c d e` (9 bytes, no NUL) with N = 32 |
| Protocol.SpacedValue1Overruns | servidor.c:130-131 | with value1 `a b c d e` and N = 32 the server finds 40 tokens, more than a 32-slot record holds, so the parse as written writes slot 32 |
| Protocol.InitRequestSetsOnlyOp | servidor.c:112-137 | the init line changes only the op of the server's record and leads to the init call |
| Protocol.KeyRequestSetsOpAndKey | servidor.c:112-137 | an `op key` line sets op and key and leaves value1, N and the vector as they were |
| Protocol.KeyRequestReachesStore | servidor.c:50-74 | get_value, delete_key and exist lines reach their own storage call with the key sent |
| Protocol.EmptyValue1Shifts | servidor.c:111-136 | the client accepts an empty value1, but the server then reads N as value1 and the first double as N, and shifts the doubles down one slot |
| Protocol.StatusReplyRoundTrip | servidor.c:91-92 | the client's atoi of a non-GET reply is the server's result code |
| Protocol.GetReplyRoundTrip | servidor.c:82-90 | a successful GET reply with a space-free value1, decoded by the client into a vector of at least N slots, gives back the server's result, value1, N and the N doubles |
| Protocol.GetFailureLeavesOutputs | claves/claves.c:244-250 | a GET reply whose result is -1 leaves the caller's value1, N and vector untouched, whatever else the reply holds |

## Left out

- Threads are not modelled: the mutex, the condition variable, the `processed_request` hand-shake and the detached worker threads. The copy of the request in `process_request` is kept implicitly, since `ProcessRequest` takes the record's fields by value.
- Socket I/O is not modelled (`socket`, `connect`, `bind`, `listen`, `accept`, `close`, `sendMessage`, `readLine`). Their outcomes are inputs: a `Network` value on the client, `received` and `sendOk` on the server. The socket descriptors are left out, including the descriptor left open when a send or read fails.
- readLine's length limit is not modelled. Status replies are read with a 3-byte limit, and the received line is taken whole. When a read fails, the buffer is taken to be unchanged; readLine's body is not part of this model.
- The storage operations are not part of this model. A call is recorded as a `StoreCall`, and the store's answer is an input (`Response`).
- Double formatting (`%lf`) and `atof` are left out. A double is the token that represents it; `%lf` printing six decimals is not captured.
- The op-code values and MAX_RETRIES come from headers that are not part of this model. The op codes are distinct placeholder constants; MAX_RETRIES is a parameter of `Client` and of the connect functions.
- The environment lookup is left out: `getenv`, the `"localhost"` rewrite, `atoi` of the port, `inet_addr` and `htons`. Only its success or failure is modelled.
- The `sizeof(V_value2) > 32` checks are left out. They take the size of the address variable, not of the vector, and never reject anything.
- The SIGINT handlers, the server's `main` set-up and the client demo `cliente_concurrente.c` are left out.
- Integers are unbounded. The 32-bit `int` overflow in `atoi`, in `%d` and in `1 << retries` is not modelled.
- strtok writing NUL bytes into the buffer is not modelled. `Claves.Client.GetValue` leaves the buffer equal to the reply on a -1 reply, where the C buffer holds the reply with its first delimiter replaced by NUL.
- Buffer capacities are not modelled: the 10706-byte request buffer, the 10695-byte GET reply, and `strcpy` of a token into `value1`.
- Claves.Client.GetValue: requires a reply the walk can read. That is a status token, and unless the status is -1, value1, N and N doubles, with N within the caller's vector. On other replies the source passes a NULL token to `atoi`/`strcpy` or writes past the caller's vector, which C leaves undefined.
- Claves.Client.SendTuple: requires the caller's vector to hold the N doubles it reads, as the C API requires of its caller.
- value1 is a string of Unicode characters, taken to be held in C as UTF-8: `strlen` is its UTF-8 byte count up to the first NUL. Arbitrary non-UTF-8 bytes in the C array are not modelled.
- Protocol.TupleRequestReachesStore / GetReplyRoundTrip: the line the receiver's `readLine` hands over is taken to be exactly the line sent, even when value1 holds a newline. `readLine` is only declared in funciones_sockets/funciones_sockets.h, and its body is not part of this model.
- Claves.Client.GetValue: `N_value2` is taken to be non-NULL. The source checks only value1 and V_value2 (claves/claves.c:209), and it dereferences `N_value2` unchecked.
- Servidor.EncodeResponse: a value1 or double token holding NUL is printed whole, where `%s` would stop at the NUL. The tokens the server parses come from a C string read off the socket, which cannot hold one.
- Servidor.ServeConnection: requires, for a line that fits, that the store's answer holds the N doubles it reports when the parsed op is GET, for the reason given for `ProcessRequest`.
- Servidor.ProcessRequest: requires the store's GET answer to hold the N doubles it reports. The C `Response` fields a failed GET leaves uninitialised are taken as whatever the store answers.

## Findings

| source | as written | input that shows it | evidently intended | confidence | as-written member | corrected member |
|---|---|---|---|---|---|---|
| servidor.c:130-131 | `parse_request` stores token k >= 4 into `V_value2[k-4]` with no bound, and always returns 0 (servidor.c:139), so the check at servidor.c:228 never fires | a SET line with capacity + 1 doubles, `OverrunLine(capacity)`: the parse writes slot `capacity`, one past the vector; the client library itself sends such a line for value1 `a b c d e` with N = 32 (`Protocol.SpacedValue1Overruns`) | refuse a line with more than 4 + capacity tokens and return -1, so the connection is closed without processing | high, not executed | Servidor.OverrunWitness | Servidor.Request.Parse |
