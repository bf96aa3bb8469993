/** JSON Pointer tokens as scripts/validate_openapi.py reads them, with the printer of
    section 4 of RFC 6901 as the inverse. */
module JsonPointer {

  /** A text cut at every slash. */
  function Split(s: string): (r: seq<string>)
    ensures |r| >= 1
  {
    if s == "" then [""]
    else if s[0] == '/' then [""] + Split(s[1..])
    else var r := Split(s[1..]); [[s[0]] + r[0]] + r[1..]
  }

  /** A text with every occurrence of two characters in a row replaced, scanned from the left. */
  function Replace(s: string, a: char, b: char, with: string): (r: string) {
    if |s| < 2 then s
    else if s[0] == a && s[1] == b then with + Replace(s[2..], a, b, with)
    else [s[0]] + Replace(s[1..], a, b, with)
  }

  /** The escapes of a token undone, slashes before tildes. */
  function Decode(token: string): (r: string) {
    Replace(Replace(token, '~', '1', "/"), '~', '0', "~")
  }

  function DecodeAll(parts: seq<string>): (r: seq<string>) {
    if parts == [] then [] else [Decode(parts[0])] + DecodeAll(parts[1..])
  }

  /** What stands behind the first slash of a fragment, cut at the slashes and decoded. */
  function Tokens(fragment: string): (r: seq<string>) {
    DecodeAll(Split(fragment)[1..])
  }

  function EncodeChar(c: char): (r: string) { if c == '~' then "~0" else if c == '/' then "~1" else [c] }

  function Encode(token: string): (r: string) {
    if token == "" then "" else EncodeChar(token[0]) + Encode(token[1..])
  }

  function EncodeAll(tokens: seq<string>): (r: seq<string>) {
    if tokens == [] then [] else [Encode(tokens[0])] + EncodeAll(tokens[1..])
  }

  function Print(tokens: seq<string>): (r: string) {
    if tokens == [] then "" else "/" + Encode(tokens[0]) + Print(tokens[1..])
  }

  /** Only the tildes escaped. */
  function EncodeTildes(token: string): (r: string) {
    if token == "" then "" else (if token[0] == '~' then "~0" else [token[0]]) + EncodeTildes(token[1..])
  }

  lemma {:induction false} SlashesFirst(t: string)
    ensures Replace(Encode(t), '~', '1', "/") == EncodeTildes(t)
    decreases |t|
  {
    if t != "" {
      var e := Encode(t[1..]);
      SlashesFirst(t[1..]);
      if t[0] == '~' {
        var s := "~0" + e;
        assert s[1..] == "0" + e;
        assert ("0" + e)[1..] == e;
        assert Replace("0" + e, '~', '1', "/") == "0" + Replace(e, '~', '1', "/");
      } else if t[0] == '/' {
        assert ("~1" + e)[2..] == e;
      } else {
        assert ([t[0]] + e)[1..] == e;
      }
    }
  }

  lemma {:induction false} TildesSecond(t: string)
    ensures Replace(EncodeTildes(t), '~', '0', "~") == t
    decreases |t|
  {
    if t != "" {
      var e := EncodeTildes(t[1..]);
      TildesSecond(t[1..]);
      if t[0] == '~' { assert ("~0" + e)[2..] == e; }
      else { assert ([t[0]] + e)[1..] == e; }
    }
  }

  lemma DecodeEncode(t: string)
    ensures Decode(Encode(t)) == t
  {
    SlashesFirst(t);
    TildesSecond(t);
  }

  lemma {:induction false} EncodeHasNoSlash(t: string)
    ensures '/' !in Encode(t)
    decreases |t|
  {
    if t != "" { EncodeHasNoSlash(t[1..]); }
  }

  /** Splitting a token without slashes off the front of a printed pointer. */
  lemma {:induction false} SplitFront(a: string, rest: string)
    requires '/' !in a && (rest == "" || rest[0] == '/')
    ensures Split(a + rest) == [a] + Split(rest)[1..]
    decreases |a|
  {
    if a == "" {
      assert a + rest == rest;
    } else {
      assert (a + rest)[0] == a[0] && (a + rest)[1..] == a[1..] + rest;
      SplitFront(a[1..], rest);
      assert [a[0]] + a[1..] == a;
    }
  }

  lemma SplitSlash(s: string)
    requires s != "" && s[0] == '/'
    ensures Split(s) == [""] + Split(s[1..])
  {
  }

  lemma Cons(e: string, parts: seq<string>, tail: seq<string>)
    requires parts == [""] + tail
    ensures [e] + parts[1..] == [e] + tail
  {
    assert parts[1..] == tail;
  }

  /** One more token in front of a printed pointer that is cut right. */
  lemma SplitToken(e: string, rest: string, tail: seq<string>)
    requires '/' !in e && (rest == "" || rest[0] == '/') && Split(rest) == [""] + tail
    ensures Split("/" + e + rest) == [""] + ([e] + tail)
  {
    var s := "/" + e + rest;
    assert s[0] == '/';
    SplitSlash(s);
    assert s[1..] == e + rest;
    SplitFront(e, rest);
    Cons(e, Split(rest), tail);
  }

  lemma PrintStarts(tokens: seq<string>)
    ensures Print(tokens) == "" || Print(tokens)[0] == '/'
  {
  }

  lemma {:induction false} SplitPrint(tokens: seq<string>)
    ensures Split(Print(tokens)) == [""] + EncodeAll(tokens)
    decreases |tokens|
  {
    if tokens != [] {
      SplitPrint(tokens[1..]);
      EncodeHasNoSlash(tokens[0]);
      PrintStarts(tokens[1..]);
      SplitToken(Encode(tokens[0]), Print(tokens[1..]), EncodeAll(tokens[1..]));
    }
  }

  lemma {:induction false} AllDecodeEncode(tokens: seq<string>)
    ensures DecodeAll(EncodeAll(tokens)) == tokens
    decreases |tokens|
  {
    if tokens != [] {
      DecodeEncode(tokens[0]);
      AllDecodeEncode(tokens[1..]);
      assert ([Encode(tokens[0])] + EncodeAll(tokens[1..]))[1..] == EncodeAll(tokens[1..]);
    }
  }

  /** Every list of tokens, including empty ones and ones holding slashes or tildes, is read
      back exactly from its printed pointer. */
  lemma PointerRoundTrip(tokens: seq<string>)
    ensures Tokens(Print(tokens)) == tokens
  {
    SplitPrint(tokens);
    AllDecodeEncode(tokens);
    assert ([""] + EncodeAll(tokens))[1..] == EncodeAll(tokens);
  }
}
