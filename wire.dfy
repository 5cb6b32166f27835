/**
  The text wire format shared by the client library and the server.

  A message is one line of space-separated tokens. The client and the server
  both build lines with `sprintf(... "%d %s ...")`, which is `Join` on a list of
  tokens, and both read them back with `strtok(..., " ")`, which is `Tokenize`.
  Integers travel as `%d` text and are read back with `atoi`; doubles travel as
  the token `%lf` prints for them and are represented here by that token.
 */
module Wire {

  datatype Option<+T> = None | Some(value: T)

  // ---------------------------------------------------------------------------
  // Operation codes (their numeric values live in a header that is not part of
  // this model; the model only relies on their being distinct)
  // ---------------------------------------------------------------------------

  const INIT: int := 0
  const SET_VALUE: int := 1
  const GET_VALUE: int := 2
  const MODIFY_VALUE: int := 3
  const DELETE_KEY: int := 4
  const EXIST: int := 5

  predicate IsOpCode(op: int) {
    op == INIT || op == SET_VALUE || op == GET_VALUE || op == MODIFY_VALUE || op == DELETE_KEY || op == EXIST
  }

  // ---------------------------------------------------------------------------
  // Tokens
  // ---------------------------------------------------------------------------

  /** A token as `strtok(s, " ")` returns it: never empty, never holding the delimiter. */
  predicate IsWord(s: string) {
    |s| > 0 && ' ' !in s
  }

  type Word = s: string | IsWord(s) witness "0"

  /** A double on the wire: the token `%lf` prints for it, read back by `atof`. */
  type Double = Word

  /** Drops the leading delimiters, as strtok does before a token starts. */
  function SkipSpaces(s: string): (r: string)
    ensures |r| <= |s|
    ensures r == [] || r[0] != ' '
    ensures r == [] <==> forall i :: 0 <= i < |s| ==> s[i] == ' '
  {
    if s != [] && s[0] == ' ' then SkipSpaces(s[1..]) else s
  }

  /** Length of the longest prefix of `s` free of the delimiter. */
  function WordLen(s: string): (n: nat)
    ensures n <= |s|
    ensures ' ' !in s[..n]
    ensures n < |s| ==> s[n] == ' '
    ensures s != [] && s[0] != ' ' ==> n > 0
  {
    if s == [] || s[0] == ' ' then 0
    else
      var m := WordLen(s[1..]);
      assert s[..m + 1] == [s[0]] + s[1..][..m];
      m + 1
  }

  /**
    One call of `strtok(p, " ")`: `None` when only delimiters remain (strtok
    returns NULL), otherwise the token and the text strtok resumes from, which
    starts just past the delimiter it overwrote.
   */
  function NextToken(s: string): (r: Option<(Word, string)>)
    ensures r.None? <==> SkipSpaces(s) == []
    ensures r.Some? ==> |r.value.1| < |s|
    ensures r.Some? ==> r.value.1 == [] || |r.value.1| + 2 <= |s|
  {
    var t := SkipSpaces(s);
    if t == [] then None
    else
      var n := WordLen(t);
      var w: Word := t[..n];
      Some((w, if n < |t| then t[n + 1..] else []))
  }

  /** The tokens successive strtok calls return, in order. */
  function Tokenize(s: string): (toks: seq<Word>)
    ensures toks == [] <==> forall i :: 0 <= i < |s| ==> s[i] == ' '
    ensures |toks| <= (|s| + 1) / 2
    decreases |s|
  {
    match NextToken(s)
    case None => []
    case Some((w, rest)) => [w] + Tokenize(rest)
  }

  /** Tokens written with one space between consecutive ones, as sprintf("%s %s ...") does. */
  function Join(toks: seq<string>): (line: string)
  {
    if |toks| == 0 then ""
    else if |toks| == 1 then toks[0]
    else toks[0] + " " + Join(toks[1..])
  }

  /** Joining n space-free tokens puts exactly n - 1 spaces into the line: one between each consecutive pair. */
  lemma {:induction false} JoinDelimiters(toks: seq<string>)
    requires forall i :: 0 <= i < |toks| ==> ' ' !in toks[i]
    ensures multiset(Join(toks))[' '] == Max0(|toks| - 1)
  {
    if |toks| == 1 {
      assert ' ' !in toks[0];
    } else if |toks| > 1 {
      assert ' ' !in toks[0];
      assert forall i :: 0 <= i < |toks[1..]| ==> toks[1..][i] == toks[i + 1];
      JoinDelimiters(toks[1..]);
      assert Join(toks) == toks[0] + " " + Join(toks[1..]);
    }
  }

  /** Appending one token to a non-empty line adds exactly one space and the token. */
  lemma {:induction false} JoinSnoc(toks: seq<string>, t: string)
    requires |toks| > 0
    ensures Join(toks + [t]) == Join(toks) + " " + t
  {
    if |toks| == 1 {
      assert toks + [t] == [toks[0], t];
      assert (toks + [t])[1..] == [t];
    } else {
      assert (toks + [t])[1..] == toks[1..] + [t];
      JoinSnoc(toks[1..], t);
    }
  }

  lemma {:induction false} WordLenOfWord(w: Word, tail: string)
    requires tail == [] || tail[0] == ' '
    ensures WordLen(w + tail) == |w|
  {
    if |w| == 1 {
      assert (w + tail)[1..] == tail;
    } else {
      assert (w + tail)[1..] == w[1..] + tail;
      assert w[0] in w;
      WordLenOfWord(w[1..], tail);
    }
  }

  /** strtok returns a word that starts a line, and resumes right after the space that follows it. */
  lemma NextTokenOfWord(w: Word, tail: string)
    ensures tail == [] ==> NextToken(w + tail) == Some((w, []))
    ensures |tail| > 0 && tail[0] == ' ' ==> NextToken(w + tail) == Some((w, tail[1..]))
  {
    assert w[0] in w;
    var s := w + tail;
    assert SkipSpaces(s) == s;
    if tail == [] || tail[0] == ' ' {
      WordLenOfWord(w, tail);
      assert s[..|w|] == w;
      if tail != [] {
        assert s[|w| + 1..] == tail[1..];
      }
    }
  }

  /** Tokenizing a line is one strtok step followed by tokenizing what it resumes from. */
  lemma TokenizeStep(s: string, w: Word, rest: string)
    requires NextToken(s) == Some((w, rest))
    ensures Tokenize(s) == [w] + Tokenize(rest)
  {
  }

  /** A line holding a single word is that one token. */
  lemma TokenizeWord(w: Word)
    ensures Tokenize(w) == [w]
  {
    NextTokenOfWord(w, []);
    assert w + [] == w;
    TokenizeStep(w, w, []);
    assert NextToken([]) == None;
  }

  /** A word followed by a space: strtok returns the word, then carries on after the space. */
  lemma TokenizeWordThen(w: Word, rest: string)
    ensures Tokenize(w + " " + rest) == [w] + Tokenize(rest)
  {
    NextTokenAfterWord(w, rest);
    TokenizeStep(w + " " + rest, w, rest);
  }

  /** The strtok call on a word followed by a space returns the word and resumes after the space. */
  lemma NextTokenAfterWord(w: Word, rest: string)
    ensures NextToken(w + " " + rest) == Some((w, rest))
  {
    var tail := " " + rest;
    assert tail[1..] == rest;
    NextTokenOfWord(w, tail);
    assert w + tail == w + " " + rest;
  }

  /** Splitting a line built by Join gives back the very tokens it was built from. */
  lemma {:induction false} TokenizeJoin(toks: seq<Word>)
    ensures Tokenize(Join(toks)) == toks
  {
    if |toks| == 0 {
      assert NextToken("") == None;
    } else if |toks| == 1 {
      TokenizeWord(toks[0]);
    } else {
      TokenizeWordThen(toks[0], Join(toks[1..]));
      TokenizeJoin(toks[1..]);
      assert toks == [toks[0]] + toks[1..];
    }
  }

  /** The first strtok call returns the first token, and what it resumes from yields the rest. */
  lemma TokenizeHead(s: string)
    ensures NextToken(s).Some? <==> Tokenize(s) != []
    ensures NextToken(s).Some? ==>
      Tokenize(s)[0] == NextToken(s).value.0 && Tokenize(NextToken(s).value.1) == Tokenize(s)[1..]
  {
  }

  /** Walking a line with strtok: when `toks[i..]` is left, the next call returns `toks[i]` and leaves `toks[i + 1..]`. */
  lemma TokenStep(cursor: string, toks: seq<Word>, i: nat)
    requires i < |toks| && Tokenize(cursor) == toks[i..]
    ensures NextToken(cursor).Some? && NextToken(cursor).value.0 == toks[i]
    ensures Tokenize(NextToken(cursor).value.1) == toks[i + 1..]
  {
  }

  /** Leading spaces produce no token. */
  lemma TokenizeSpace(rest: string)
    ensures Tokenize(" " + rest) == Tokenize(rest)
  {
    var line := " " + rest;
    assert line[1..] == rest;
    assert SkipSpaces(line) == SkipSpaces(rest);
    assert NextToken(line) == NextToken(rest);
  }

  /** A run of delimiters counts as one: a second space between two parts changes no token. */
  lemma DoubleSpaceIsOneDelimiter(w: Word, rest: string)
    ensures Tokenize(w + "  " + rest) == Tokenize(w + " " + rest)
  {
    var line: string := w + "  " + rest;
    var tail: string := " " + rest;
    assert line == w + " " + tail;
    TokenizeWordThen(w, tail);
    TokenizeWordThen(w, rest);
    TokenizeSpace(rest);
  }

  /** Two non-empty lists joined one after the other, with one space between them. */
  lemma {:induction false} JoinAppend(xs: seq<string>, ys: seq<string>)
    requires |xs| > 0 && |ys| > 0
    ensures Join(xs + ys) == Join(xs) + " " + Join(ys)
  {
    if |xs| == 1 {
      assert (xs + ys)[1..] == ys;
    } else {
      assert (xs + ys)[1..] == xs[1..] + ys;
      JoinAppend(xs[1..], ys);
    }
  }

  /** Joining a run of strings first, then joining it in place, is joining them all at once. */
  lemma {:induction false} JoinNested(head: seq<string>, mid: seq<string>, tail: seq<string>)
    requires |head| > 0 && |mid| > 0 && |tail| > 0
    ensures Join(head + ([Join(mid)] + tail)) == Join(head + (mid + tail))
  {
    var t := [Join(mid)] + tail;
    JoinAppend(head, t);
    assert t[1..] == tail;
    assert Join(t) == Join(mid) + " " + Join(tail);
    JoinAppend(mid, tail);
    JoinAppend(head, mid + tail);
  }

  // ---------------------------------------------------------------------------
  // C strings
  // ---------------------------------------------------------------------------

  /** The string a C char array holds: everything before its first NUL. */
  function CStr(s: string): (r: string)
    ensures |r| <= |s| && r == s[..|r|]
    ensures '\0' !in r
    ensures |r| < |s| ==> s[|r|] == '\0'
  {
    if s == [] || s[0] == '\0' then [] else [s[0]] + CStr(s[1..])
  }

  /** The number of bytes UTF-8 takes for one character. */
  function Utf8Width(c: char): nat
  {
    if c as int < 0x80 then 1 else if c as int < 0x800 then 2 else if c as int < 0x1_0000 then 3 else 4
  }

  /** The number of bytes UTF-8 takes for a string. */
  function Utf8Bytes(s: string): (n: nat)
    ensures |s| <= n <= 4 * |s|
  {
    if s == [] then 0 else Utf8Width(s[0]) + Utf8Bytes(s[1..])
  }

  /** C `strlen` of a char array holding `s` in UTF-8: the bytes before the first NUL. */
  function Strlen(s: string): (n: nat)
    ensures |CStr(s)| <= n <= 4 * |CStr(s)|
  {
    Utf8Bytes(CStr(s))
  }

  /** A string without NUL is all C string. */
  lemma {:induction false} CStrOfNulFree(s: string)
    requires '\0' !in s
    ensures CStr(s) == s
  {
    if s != [] {
      assert s[0] in s;
      assert forall c :: c in s[1..] ==> c in s;
      CStrOfNulFree(s[1..]);
    }
  }

  /** For ASCII text without NUL, strlen is the number of characters. */
  lemma {:induction false} AsciiStrlen(s: string)
    requires forall i :: 0 <= i < |s| ==> s[i] != '\0' && s[i] as int < 0x80
    ensures Strlen(s) == |s|
  {
    assert '\0' !in s by {
      forall i | 0 <= i < |s| ensures s[i] != '\0' { }
    }
    CStrOfNulFree(s);
    AsciiBytes(s);
  }

  lemma {:induction false} AsciiBytes(s: string)
    requires forall i :: 0 <= i < |s| ==> s[i] as int < 0x80
    ensures Utf8Bytes(s) == |s|
  {
    if s != [] {
      AsciiBytes(s[1..]);
    }
  }

  /** k copies of one character take k times its width. */
  lemma {:induction false} Utf8BytesRepeated(c: char, k: nat)
    ensures Utf8Bytes(seq(k, _ => c)) == k * Utf8Width(c)
  {
    if k > 0 {
      assert seq(k, _ => c)[1..] == seq(k - 1, _ => c);
      Utf8BytesRepeated(c, k - 1);
    }
  }

  // ---------------------------------------------------------------------------
  // Fixed-size output arrays
  // ---------------------------------------------------------------------------

  /** An array `base` after its first |xs| slots have been overwritten by `xs`. */
  function Overlay<T>(base: seq<T>, xs: seq<T>): (r: seq<T>)
    requires |xs| <= |base|
    ensures |r| == |base|
    ensures forall i :: 0 <= i < |xs| ==> r[i] == xs[i]
    ensures forall i :: |xs| <= i < |base| ==> r[i] == base[i]
  {
    xs + base[|xs|..]
  }

  /** One more element of `v` after a fixed head. */
  lemma SnocSlice<T>(head: seq<T>, v: seq<T>, i: nat)
    requires i < |v|
    ensures head + v[..i + 1] == (head + v[..i]) + [v[i]]
  {
  }

  /** Overwriting the next slot extends the overlay by one element. */
  lemma OverlaySnoc<T>(base: seq<T>, xs: seq<T>, x: T)
    requires |xs| < |base|
    ensures Overlay(base, xs)[|xs| := x] == Overlay(base, xs + [x])
  {
  }

  function Max0(n: int): nat
  {
    if n < 0 then 0 else n
  }

  // ---------------------------------------------------------------------------
  // Integers: `%d` and `atoi`
  // ---------------------------------------------------------------------------

  predicate IsDigit(c: char) {
    '0' <= c <= '9'
  }

  function DigitChar(d: nat): (c: char)
    requires d < 10
    ensures IsDigit(c) && (c as int) - ('0' as int) == d
  {
    ('0' as int + d) as char
  }

  /** Decimal digits of a natural number, most significant first, no leading zeros. */
  function NatToString(n: nat): (s: string)
    ensures |s| > 0
    ensures forall i :: 0 <= i < |s| ==> IsDigit(s[i])
  {
    if n < 10 then [DigitChar(n)] else NatToString(n / 10) + [DigitChar(n % 10)]
  }

  /** `sprintf("%d", n)`. */
  function IntToString(n: int): (s: string)
    ensures IsWord(s)
  {
    var d := NatToString(if n < 0 then -n else n);
    var s := if n < 0 then "-" + d else d;
    assert forall i :: 0 <= i < |s| ==> s[i] != ' ' by {
      forall i | 0 <= i < |s| ensures s[i] != ' ' {
        if n < 0 && i > 0 { assert s[i] == d[i - 1]; }
      }
    }
    s
  }

  /** The characters C's isspace accepts; atoi skips them before the number. */
  predicate IsCSpace(c: char) {
    c == ' ' || c == '\t' || c == '\n' || c == '\r' || c == '\U{B}' || c == '\U{C}'
  }

  function SkipCSpace(s: string): (r: string)
    ensures |r| <= |s|
    ensures r == [] || !IsCSpace(r[0])
  {
    if s != [] && IsCSpace(s[0]) then SkipCSpace(s[1..]) else s
  }

  /** Length of the longest prefix of `s` made of decimal digits. */
  function DigitRun(s: string): (n: nat)
    ensures n <= |s|
    ensures forall i :: 0 <= i < n ==> IsDigit(s[i])
  {
    if s == [] || !IsDigit(s[0]) then 0 else 1 + DigitRun(s[1..])
  }

  /** The value of a string of decimal digits. */
  function DigitsValue(d: string): nat
    requires forall i :: 0 <= i < |d| ==> IsDigit(d[i])
  {
    if d == [] then 0 else 10 * DigitsValue(d[..|d| - 1]) + DigitValue(d[|d| - 1])
  }

  function DigitValue(c: char): nat
    requires IsDigit(c)
  {
    (c as int) - ('0' as int)
  }

  /**
    `atoi(s)`: leading white space, an optional sign, then as many decimal
    digits as follow; 0 when there are none.
   */
  function Atoi(s: string): (n: int)
    ensures var t := SkipCSpace(s);
      (t == [] || (!IsDigit(t[0]) && !((t[0] == '-' || t[0] == '+') && |t| > 1 && IsDigit(t[1])))) ==> n == 0
    ensures n < 0 ==> SkipCSpace(s) != [] && SkipCSpace(s)[0] == '-'
  {
    var t := SkipCSpace(s);
    if t != [] && (t[0] == '-' || t[0] == '+') then
      var v: int := DigitsValue(t[1..][..DigitRun(t[1..])]);
      if t[0] == '-' then -v else v
    else
      DigitsValue(t[..DigitRun(t)])
  }

  lemma {:induction false} DigitRunOfDigits(s: string)
    requires forall i :: 0 <= i < |s| ==> IsDigit(s[i])
    ensures DigitRun(s) == |s|
  {
    if s != [] {
      DigitRunOfDigits(s[1..]);
    }
  }

  lemma {:induction false} DigitsValueOfNat(n: nat)
    ensures DigitsValue(NatToString(n)) == n
  {
    var s := NatToString(n);
    if n >= 10 {
      assert s[..|s| - 1] == NatToString(n / 10);
      DigitsValueOfNat(n / 10);
    }
  }

  /** `atoi` reads back exactly the integer `%d` printed. */
  lemma AtoiIntToString(n: int)
    ensures Atoi(IntToString(n)) == n
  {
    var d := NatToString(if n < 0 then -n else n);
    DigitRunOfDigits(d);
    DigitsValueOfNat(if n < 0 then -n else n);
    var s := IntToString(n);
    assert SkipCSpace(s) == s by {
      assert !IsCSpace(s[0]) by {
        if n >= 0 { assert IsDigit(d[0]); }
      }
    }
    if n < 0 {
      assert s[1..] == d;
      assert d[..|d|] == d;
    } else {
      assert IsDigit(d[0]);
      assert d[..|d|] == d;
    }
  }
}
