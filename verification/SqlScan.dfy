/** The two SQL scanners of scripts/generate_database_er_atlas.py: the splitter at top-level
    delimiters and the finder of a parenthesised body. */
module SqlScan {
  import opened Common

  /** Position i is inside a string literal: an odd number of quotes stand before it. */
  predicate Quoted(text: string, i: nat)
    requires i <= |text|
  {
    i > 0 && ((text[i - 1] == '\'') != Quoted(text, i - 1))
  }

  /** Parentheses open before position i, those inside literals aside. */
  function Depth(text: string, i: nat): (r: int)
    requires i <= |text|
  {
    if i == 0 then 0
    else Depth(text, i - 1) + (if Quoted(text, i - 1) then 0
                               else if text[i - 1] == '(' then 1
                               else if text[i - 1] == ')' then -1
                               else 0)
  }

  /** Outside literals every parenthesis has its partner, and every literal is closed. */
  ghost predicate Balanced(text: string) {
    && (forall i: nat | i <= |text| :: Depth(text, i) >= 0)
    && Depth(text, |text|) == 0
    && !Quoted(text, |text|)
  }

  /** A delimiter that is neither inside a literal nor inside parentheses. */
  predicate IsCut(text: string, delimiter: char, i: nat)
    requires i < |text|
  {
    && text[i] == delimiter
    && delimiter !in {'\'', '(', ')'}
    && !Quoted(text, i)
    && Depth(text, i) == 0
  }

  ghost predicate NoCut(text: string, delimiter: char) {
    forall i: nat | i < |text| :: !IsCut(text, delimiter, i)
  }

  /** Where the piece that reaches position n starts: just behind the last cut. */
  function StartAt(text: string, delimiter: char, n: nat): (start: nat)
    requires n <= |text|
    ensures start <= n
  {
    if n == 0 then 0
    else if IsCut(text, delimiter, n - 1) then n
    else StartAt(text, delimiter, n - 1)
  }

  /** The pieces that end at a cut before position n. */
  function CutOff(text: string, delimiter: char, n: nat): (r: seq<string>)
    requires n <= |text|
  {
    if n == 0 then []
    else if IsCut(text, delimiter, n - 1)
    then CutOff(text, delimiter, n - 1) + [text[StartAt(text, delimiter, n - 1)..n - 1]]
    else CutOff(text, delimiter, n - 1)
  }

  /** All pieces of the text, delimiters dropped. */
  function Pieces(text: string, delimiter: char): (r: seq<string>)
    ensures |r| >= 1
  {
    CutOff(text, delimiter, |text|) + [text[StartAt(text, delimiter, |text|)..]]
  }

  function Join(pieces: seq<string>, delimiter: char): (r: string)
    requires pieces != []
  {
    var n := |pieces| - 1;
    if n == 0 then pieces[0] else Join(pieces[..n], delimiter) + [delimiter] + pieces[n]
  }

  // ---- what Python's strip() and the final filter do to the pieces ----

  predicate IsSpace(c: char) {
    var u := c as int;
    9 <= u <= 13 || 28 <= u <= 32 || u == 0x85 || u == 0xA0 || u == 0x1680 || 0x2000 <= u <= 0x200A
    || u == 0x2028 || u == 0x2029 || u == 0x202F || u == 0x205F || u == 0x3000
  }

  function Strip(s: string): (r: string)
    decreases |s|
  {
    if s == "" then ""
    else if IsSpace(s[0]) then Strip(s[1..])
    else if IsSpace(s[|s| - 1]) then Strip(s[..|s| - 1])
    else s
  }

  function Kept(pieces: seq<string>): (r: seq<string>) {
    if pieces == [] then []
    else
      var last := Strip(pieces[|pieces| - 1]);
      Kept(pieces[..|pieces| - 1]) + (if last == "" then [] else [last])
  }

  lemma KeptAppend(pieces: seq<string>, piece: string)
    ensures Kept(pieces + [piece]) == Kept(pieces) + (if Strip(piece) == "" then [] else [Strip(piece)])
  {
    assert (pieces + [piece])[..|pieces|] == pieces;
  }

  /** The stripped pieces, still with the empty ones: parts before its last comprehension. */
  function Stripped(pieces: seq<string>): (r: seq<string>) {
    seq(|pieces|, i requires 0 <= i < |pieces| => Strip(pieces[i]))
  }

  lemma StrippedAppend(pieces: seq<string>, piece: string)
    ensures Stripped(pieces + [piece]) == Stripped(pieces) + [Strip(piece)]
  {
  }

  /** The doubled quote that the loop steps over changes neither flag nor depth, and is no cut. */
  lemma DoubledQuote(text: string, delimiter: char, i: nat)
    requires i + 1 < |text| && text[i] == '\'' && text[i + 1] == '\''
    ensures Quoted(text, i + 2) == Quoted(text, i) && Depth(text, i + 2) == Depth(text, i)
    ensures CutOff(text, delimiter, i + 2) == CutOff(text, delimiter, i)
    ensures StartAt(text, delimiter, i + 2) == StartAt(text, delimiter, i)
  {
    assert Depth(text, i + 1) == Depth(text, i);
    assert Quoted(text, i + 1) != Quoted(text, i);
    assert CutOff(text, delimiter, i + 1) == CutOff(text, delimiter, i);
    assert StartAt(text, delimiter, i + 1) == StartAt(text, delimiter, i);
  }

  /** Splits outside parentheses and string literals, drops blank pieces. */
  method SplitSql(text: string, delimiter: char) returns (parts: seq<string>)
    ensures parts == Kept(Pieces(text, delimiter))
  {
    var all: seq<string>, start, depth, quoted := [], 0, 0, false;
    var i := 0;
    while i < |text|
      invariant 0 <= i <= |text|
      invariant quoted == Quoted(text, i) && depth == Depth(text, i)
      invariant start == StartAt(text, delimiter, i) && all == Stripped(CutOff(text, delimiter, i))
    {
      var c := text[i];
      if c == '\'' {
        if quoted && i + 1 < |text| && text[i + 1] == '\'' {
          DoubledQuote(text, delimiter, i);
          i := i + 2;
          continue;
        }
        quoted := !quoted;
      } else if !quoted {
        if c == '(' {
          depth := depth + 1;
        } else if c == ')' {
          depth := depth - 1;
        } else if c == delimiter && depth == 0 {
          StrippedAppend(CutOff(text, delimiter, i), text[start..i]);
          all := all + [Strip(text[start..i])];
          start := i + 1;
        }
      }
      i := i + 1;
    }
    StrippedAppend(CutOff(text, delimiter, i), text[start..]);
    all := all + [Strip(text[start..])];
    parts := DropEmpty(all, Pieces(text, delimiter));
  }

  method DropEmpty(all: seq<string>, ghost pieces: seq<string>) returns (parts: seq<string>)
    requires all == Stripped(pieces)
    ensures parts == Kept(pieces)
  {
    parts := [];
    for i := 0 to |all|
      invariant parts == Kept(pieces[..i])
    {
      assert pieces[..i + 1] == pieces[..i] + [pieces[i]];
      KeptAppend(pieces[..i], pieces[i]);
      if all[i] != "" { parts := parts + [all[i]]; }
    }
    assert pieces[..|all|] == pieces;
  }

  // ---- the pieces rejoin to the text ----

  lemma JoinAppend(pieces: seq<string>, delimiter: char, piece: string)
    requires pieces != []
    ensures Join(pieces + [piece], delimiter) == Join(pieces, delimiter) + [delimiter] + piece
  {
    assert (pieces + [piece])[..|pieces|] == pieces;
  }

  lemma JoinSplit(head: seq<string>, delimiter: char, a: string, b: string)
    ensures Join(head + [a] + [b], delimiter) == Join(head + [a + [delimiter] + b], delimiter)
  {
    var both := a + [delimiter] + b;
    JoinAppend(head + [a], delimiter, b);
    if head == [] {
      assert head + [a] == [a] && head + [both] == [both];
    } else {
      JoinAppend(head, delimiter, a);
      JoinAppend(head, delimiter, both);
      assert Join(head, delimiter) + [delimiter] + both == Join(head, delimiter) + [delimiter] + a + [delimiter] + b;
    }
  }

  lemma AroundCut(text: string, s: nat, n: nat)
    requires s <= n < |text|
    ensures text[s..] == text[s..n] + [text[n]] + text[n + 1..]
  {
  }

  lemma {:induction false} JoinUpTo(text: string, delimiter: char, n: nat)
    requires n <= |text|
    ensures Join(CutOff(text, delimiter, n) + [text[StartAt(text, delimiter, n)..]], delimiter) == text
    decreases n
  {
    if n == 0 {
      assert text[0..] == text;
    } else {
      JoinUpTo(text, delimiter, n - 1);
      if IsCut(text, delimiter, n - 1) {
        var s := StartAt(text, delimiter, n - 1);
        AroundCut(text, s, n - 1);
        JoinSplit(CutOff(text, delimiter, n - 1), delimiter, text[s..n - 1], text[n..]);
      }
    }
  }

  /** No character but the cut delimiters is lost. */
  lemma PiecesRejoin(text: string, delimiter: char)
    ensures Join(Pieces(text, delimiter), delimiter) == text
  {
    JoinUpTo(text, delimiter, |text|);
  }

  // ---- scanning a part of the text from a position outside literals and parentheses ----

  lemma {:induction false} ScanPart(text: string, from: nat, upto: nat, k: nat)
    requires from <= upto <= |text| && k <= upto - from
    requires !Quoted(text, from)
    ensures Quoted(text[from..upto], k) == Quoted(text, from + k)
    ensures Depth(text[from..upto], k) == Depth(text, from + k) - Depth(text, from)
    decreases k
  {
    if k > 0 { ScanPart(text, from, upto, k - 1); }
  }

  lemma {:induction false} ScanPrefix(text: string, upto: nat, k: nat)
    requires k <= upto <= |text|
    ensures Quoted(text[..upto], k) == Quoted(text, k) && Depth(text[..upto], k) == Depth(text, k)
    decreases k
  {
    if k > 0 { ScanPrefix(text, upto, k - 1); }
  }

  lemma {:induction false} CutPrefix(text: string, delimiter: char, upto: nat, k: nat)
    requires k <= upto <= |text|
    ensures StartAt(text[..upto], delimiter, k) == StartAt(text, delimiter, k)
    ensures CutOff(text[..upto], delimiter, k) == CutOff(text, delimiter, k)
    decreases k
  {
    if k > 0 {
      CutPrefix(text, delimiter, upto, k - 1);
      ScanPrefix(text, upto, k - 1);
      var s := StartAt(text, delimiter, k - 1);
      assert text[..upto][s..k - 1] == text[s..k - 1];
    }
  }

  /** The text is a, a delimiter that is a cut, and b. */
  ghost predicate CutInto(text: string, a: string, delimiter: char, b: string) {
    && |text| == |a| + 1 + |b|
    && text[..|a|] == a
    && IsCut(text, delimiter, |a|)
    && text[|a| + 1..] == b
  }

  lemma SplitsLeft(text: string, a: string, delimiter: char, b: string)
    requires CutInto(text, a, delimiter, b)
    ensures forall k: nat | k <= |a| :: Quoted(text, k) == Quoted(a, k) && Depth(text, k) == Depth(a, k)
  {
    forall k: nat | k <= |a| ensures Quoted(text, k) == Quoted(a, k) && Depth(text, k) == Depth(a, k) {
      ScanPrefix(text, |a|, k);
    }
  }

  lemma SplitsRight(text: string, a: string, delimiter: char, b: string)
    requires CutInto(text, a, delimiter, b)
    ensures forall k: nat | k <= |b| ::
              Quoted(text, |a| + 1 + k) == Quoted(b, k) && Depth(text, |a| + 1 + k) == Depth(b, k)
  {
    var from := |a| + 1;
    assert !Quoted(text, from) && Depth(text, from) == 0;
    assert text[from..|text|] == b;
    forall k: nat | k <= |b| ensures Quoted(text, from + k) == Quoted(b, k) && Depth(text, from + k) == Depth(b, k) {
      ScanPart(text, from, |text|, k);
    }
  }

  lemma BalancedAround(a: string, delimiter: char, b: string)
    requires IsCut(a + [delimiter] + b, delimiter, |a|)
    ensures Balanced(a + [delimiter] + b) <==> Balanced(a) && Balanced(b)
  {
    var text := a + [delimiter] + b;
    assert CutInto(text, a, delimiter, b);
    SplitsLeft(text, a, delimiter, b);
    SplitsRight(text, a, delimiter, b);
    assert Depth(text, |a|) == 0 && !Quoted(text, |a|);
    assert Depth(text, |text|) == Depth(b, |b|) by { assert |text| == |a| + 1 + |b|; }
    if Balanced(text) {
      forall k: nat | k <= |a| ensures Depth(a, k) >= 0 { assert Depth(text, k) >= 0; }
      forall k: nat | k <= |b| ensures Depth(b, k) >= 0 { assert Depth(text, |a| + 1 + k) >= 0; }
    }
    if Balanced(a) && Balanced(b) {
      forall k: nat | k <= |text| ensures Depth(text, k) >= 0 {
        if k > |a| { assert Depth(b, k - |a| - 1) >= 0; }
      }
    }
  }

  /** Nothing is cut from the start of the last piece on, and a cut is just before it. */
  lemma {:induction false} LastStart(text: string, delimiter: char, n: nat)
    requires n <= |text|
    ensures var s := StartAt(text, delimiter, n);
            && (forall i: nat | s <= i < n :: !IsCut(text, delimiter, i))
            && (if s == 0 then CutOff(text, delimiter, n) == []
                else && IsCut(text, delimiter, s - 1)
                     && CutOff(text, delimiter, n) ==
                        CutOff(text, delimiter, s - 1) + [text[StartAt(text, delimiter, s - 1)..s - 1]])
    decreases n
  {
    if n > 0 { LastStart(text, delimiter, n - 1); }
  }

  /** The last cut of a text separates the pieces before it from a last piece without cuts. */
  lemma LastCut(text: string, delimiter: char) returns (a: string, b: string)
    requires StartAt(text, delimiter, |text|) > 0
    ensures text == a + [delimiter] + b && IsCut(text, delimiter, |a|)
    ensures Pieces(text, delimiter) == Pieces(a, delimiter) + [b] && NoCut(b, delimiter)
  {
    LastStart(text, delimiter, |text|);
    var cut := StartAt(text, delimiter, |text|) - 1;
    a, b := text[..cut], text[cut + 1..];
    CutPrefix(text, delimiter, cut, cut);
    var s := StartAt(text, delimiter, cut);
    assert a[s..] == text[s..cut];
    assert text == a + [delimiter] + b;
    SplitsRight(text, a, delimiter, b);
    forall i: nat | i < |b| ensures !IsCut(b, delimiter, i) {
      assert !IsCut(text, delimiter, cut + 1 + i);
      assert Quoted(text, |a| + 1 + i) == Quoted(b, i);
    }
  }

  lemma {:induction false} NoCutStart(text: string, delimiter: char, n: nat)
    requires n <= |text| && forall i: nat | i < n :: !IsCut(text, delimiter, i)
    ensures StartAt(text, delimiter, n) == 0 && CutOff(text, delimiter, n) == []
  {
    if n > 0 { NoCutStart(text, delimiter, n - 1); }
  }

  lemma OnePiece(text: string, delimiter: char)
    requires StartAt(text, delimiter, |text|) == 0 || NoCut(text, delimiter)
    ensures Pieces(text, delimiter) == [text] && NoCut(text, delimiter)
  {
    LastStart(text, delimiter, |text|);
    if NoCut(text, delimiter) { NoCutStart(text, delimiter, |text|); }
    assert text[0..] == text;
  }

  /** A text is balanced exactly when every piece of it is: cutting never separates a parenthesis
      or a quote from its partner, and never hides an unbalanced piece. */
  lemma {:induction false} BalancedPieces(text: string, delimiter: char)
    ensures Balanced(text) <==> forall k :: 0 <= k < |Pieces(text, delimiter)| ==> Balanced(Pieces(text, delimiter)[k])
    decreases |text|
  {
    var pieces := Pieces(text, delimiter);
    if StartAt(text, delimiter, |text|) == 0 {
      OnePiece(text, delimiter);
      assert Balanced(text) <==> Balanced(pieces[0]);
    } else {
      var a, b := LastCut(text, delimiter);
      BalancedPieces(a, delimiter);
      BalancedAround(a, delimiter, b);
      var rest := Pieces(a, delimiter);
      assert pieces[|rest|] == b;
      assert forall k :: 0 <= k < |rest| ==> pieces[k] == rest[k];
    }
  }

  /** Whether or not the text is balanced, no piece holds a delimiter that could still be cut. */
  lemma {:induction false} PiecesAreWhole(text: string, delimiter: char, k: nat)
    requires k < |Pieces(text, delimiter)|
    ensures NoCut(Pieces(text, delimiter)[k], delimiter)
    ensures Pieces(Pieces(text, delimiter)[k], delimiter) == [Pieces(text, delimiter)[k]]
    decreases |text|
  {
    if StartAt(text, delimiter, |text|) == 0 {
      OnePiece(text, delimiter);
    } else {
      var a, b := LastCut(text, delimiter);
      if k < |Pieces(a, delimiter)| {
        PiecesAreWhole(a, delimiter, k);
      } else {
        OnePiece(b, delimiter);
      }
    }
  }

  /** Behind a cut, a text without cuts is one more piece. */
  lemma PiecesAround(a: string, delimiter: char, b: string)
    requires IsCut(a + [delimiter] + b, delimiter, |a|) && NoCut(b, delimiter)
    ensures Pieces(a + [delimiter] + b, delimiter) == Pieces(a, delimiter) + [b]
  {
    var text := a + [delimiter] + b;
    var s := StartAt(a, delimiter, |a|);
    assert text[..|a|] == a && text[|a| + 1..] == b;
    CutPrefix(text, delimiter, |a|, |a|);
    assert text[s..|a|] == a[s..];
    SplitsRight(text, a, delimiter, b);
    forall i: nat | |a| + 1 <= i < |text| ensures !IsCut(text, delimiter, i) {
      assert Quoted(text, |a| + 1 + (i - |a| - 1)) == Quoted(b, i - |a| - 1);
      assert !IsCut(b, delimiter, i - |a| - 1);
    }
    SameCuts(text, delimiter, |a| + 1, |text|);
  }

  lemma {:induction false} SameCuts(text: string, delimiter: char, m: nat, n: nat)
    requires m <= n <= |text| && forall i: nat | m <= i < n :: !IsCut(text, delimiter, i)
    ensures StartAt(text, delimiter, n) == StartAt(text, delimiter, m)
    ensures CutOff(text, delimiter, n) == CutOff(text, delimiter, m)
    decreases n
  {
    if m < n { SameCuts(text, delimiter, m, n - 1); }
  }

  ghost predicate AllBalanced(pieces: seq<string>) {
    forall k :: 0 <= k < |pieces| ==> Balanced(pieces[k])
  }

  ghost predicate NoneCut(pieces: seq<string>, delimiter: char) {
    forall k :: 0 <= k < |pieces| ==> NoCut(pieces[k], delimiter)
  }

  lemma FrontAndLast(pieces: seq<string>, delimiter: char)
    requires pieces != [] && AllBalanced(pieces) && NoneCut(pieces, delimiter)
    ensures var front, last := pieces[..|pieces| - 1], pieces[|pieces| - 1];
            pieces == front + [last] && AllBalanced(front) && NoneCut(front, delimiter) && NoCut(last, delimiter)
  {
  }

  /** Splitting undoes joining: balanced pieces without a delimiter to cut come back unchanged. */
  lemma {:induction false} SplitJoin(pieces: seq<string>, delimiter: char)
    requires pieces != [] && delimiter !in {'\'', '(', ')'}
    requires AllBalanced(pieces) && NoneCut(pieces, delimiter)
    ensures Pieces(Join(pieces, delimiter), delimiter) == pieces
    decreases |pieces|
  {
    if |pieces| == 1 {
      assert NoCut(pieces[0], delimiter);
      OnePiece(pieces[0], delimiter);
    } else {
      var front, last := pieces[..|pieces| - 1], pieces[|pieces| - 1];
      FrontAndLast(pieces, delimiter);
      SplitJoin(front, delimiter);
      OneMorePiece(Join(front, delimiter), delimiter, last);
      JoinAppend(front, delimiter, last);
    }
  }

  /** One more piece behind a text that splits into balanced ones. */
  lemma OneMorePiece(text: string, delimiter: char, last: string)
    requires delimiter !in {'\'', '(', ')'} && AllBalanced(Pieces(text, delimiter)) && NoCut(last, delimiter)
    ensures Pieces(text + [delimiter] + last, delimiter) == Pieces(text, delimiter) + [last]
  {
    BalancedPieces(text, delimiter);
    CutAfterBalanced(text, delimiter, last);
    PiecesAround(text, delimiter, last);
  }

  lemma CutAfterBalanced(a: string, delimiter: char, b: string)
    requires Balanced(a) && delimiter !in {'\'', '(', ')'}
    ensures IsCut(a + [delimiter] + b, delimiter, |a|)
  {
    var text := a + [delimiter] + b;
    assert text[..|a|] == a && text[|a|] == delimiter;
    ScanPrefix(text, |a|, |a|);
  }

  // ---- the body of CREATE TABLE ----

  /** The parenthesis at j closes the one at the start of t. */
  predicate ClosesAt(t: string, j: nat)
    requires j < |t|
  {
    t[j] == ')' && !Quoted(t, j) && Depth(t, j + 1) == 0
  }

  /** Text opening at an open parenthesis reads "(" body ")" with a balanced body. */
  ghost predicate Encloses(text: string, opening: nat, body: string) {
    && opening + |body| + 1 < |text|
    && text[opening] == '('
    && text[opening + 1..opening + 1 + |body|] == body
    && text[opening + 1 + |body|] == ')'
    && Balanced(body)
  }

  lemma FirstCloseEncloses(text: string, opening: nat, j: nat)
    requires opening + j < |text| && text[opening] == '('
    requires ClosesAt(text[opening..], j)
    requires forall k: nat | k < j :: !ClosesAt(text[opening..], k)
    ensures j > 0 && Encloses(text, opening, text[opening + 1..opening + j])
  {
    var t := text[opening..];
    assert Depth(t, 1) == 1;
    var body := t[1..j];
    assert body == text[opening + 1..opening + j];
    forall k: nat | k <= |body| ensures Depth(body, k) == Depth(t, 1 + k) - 1 >= 0 && Quoted(body, k) == Quoted(t, 1 + k) {
      ScanPart(t, 1, j, k);
      StaysOpen(t, 1 + k);
    }
  }

  lemma {:induction false} StaysOpen(t: string, k: nat)
    requires 0 < k <= |t| && t[0] == '('
    requires forall m: nat | m < k :: !ClosesAt(t, m)
    ensures Depth(t, k) >= 1
    decreases k
  {
    if k > 1 {
      StaysOpen(t, k - 1);
      assert !ClosesAt(t, k - 1);
    } else {
      assert Depth(t, 0) == 0;
    }
  }

  lemma EnclosedCloses(text: string, opening: nat, body: string)
    requires Encloses(text, opening, body)
    ensures ClosesAt(text[opening..], |body| + 1)
    ensures forall k: nat | k <= |body| :: !ClosesAt(text[opening..], k)
  {
    var t := text[opening..];
    assert t[1..|body| + 1] == body;
    assert Depth(t, 1) == 1;
    forall k: nat | k <= |body| ensures Depth(t, 1 + k) == Depth(body, k) + 1 && Quoted(t, 1 + k) == Quoted(body, k) {
      ScanPart(t, 1, |body| + 1, k);
    }
    forall k: nat | k <= |body| ensures !ClosesAt(t, k) {
      if k > 0 { assert Depth(body, k) >= 0; assert Depth(t, 1 + k) == Depth(body, k) + 1; }
    }
  }

  /** None is the source's ValueError. From an open parenthesis the result is the balanced text up
      to its partner, and there is an error exactly when it has no partner. */
  method BodyAt(text: string, opening: nat) returns (r: Option<string>)
    requires opening < |text|
    ensures r.None? ==> forall j: nat | j < |text| - opening :: !ClosesAt(text[opening..], j)
    ensures r.Some? ==> exists j: nat :: j < |text| - opening && ClosesAt(text[opening..], j)
                          && (forall k: nat | k < j :: !ClosesAt(text[opening..], k))
                          && r.value == (if j == 0 then "" else text[opening + 1..opening + j])
    ensures text[opening] == '(' ==> forall body :: r == Some(body) <==> Encloses(text, opening, body)
  {
    ghost var t := text[opening..];
    var depth, quoted := 0, false;
    r := None;
    var i := opening;
    while i < |text|
      invariant opening <= i <= |text|
      invariant quoted == Quoted(t, i - opening) && depth == Depth(t, i - opening)
      invariant forall j: nat | j < i - opening :: !ClosesAt(t, j)
    {
      var c := text[i];
      if c == '\'' { quoted := !quoted; }
      if !quoted {
        if c == '(' { depth := depth + 1; }
        if c == ')' {
          depth := depth - 1;
          if depth == 0 {
            assert ClosesAt(t, i - opening);
            r := Some(if i == opening then "" else text[opening + 1..i]);
            BodyIsEnclosed(text, opening, i - opening);
            return;
          }
        }
      }
      i := i + 1;
    }
    if text[opening] == '(' {
      forall body ensures !Encloses(text, opening, body) {
        if Encloses(text, opening, body) { EnclosedCloses(text, opening, body); }
      }
    }
  }

  lemma BodyIsEnclosed(text: string, opening: nat, j: nat)
    requires opening + j < |text| && ClosesAt(text[opening..], j)
    requires forall k: nat | k < j :: !ClosesAt(text[opening..], k)
    ensures text[opening] == '(' ==>
              j > 0 && forall body :: text[opening + 1..opening + j] == body <==> Encloses(text, opening, body)
  {
    if text[opening] == '(' {
      FirstCloseEncloses(text, opening, j);
      forall body | Encloses(text, opening, body) ensures text[opening + 1..opening + j] == body {
        EnclosedCloses(text, opening, body);
        assert j == |body| + 1;
      }
    }
  }

  // ---- the two ways of reading quotes ----

  /** The literal flag with which the splitter's loop, standing at i with the given flag, looks at
      position j; None when it steps over j. */
  function FlagAt(text: string, i: nat, quoted: bool, j: nat): (r: Option<bool>)
    requires i <= |text| && j < |text|
    decreases |text| - i
  {
    if j < i then None
    else if i == j then Some(quoted)
    else if text[i] != '\'' then FlagAt(text, i + 1, quoted, j)
    else if quoted && i + 1 < |text| && text[i + 1] == '\'' then FlagAt(text, i + 2, quoted, j)
    else FlagAt(text, i + 1, !quoted, j)
  }

  lemma {:induction false} FlagFrom(text: string, i: nat, j: nat)
    requires i <= j < |text|
    ensures FlagAt(text, i, Quoted(text, i), j) == (if FlagAt(text, i, Quoted(text, i), j).None? then None else Some(Quoted(text, j)))
    ensures FlagAt(text, i, Quoted(text, i), j).None? ==> text[j] == '\''
    decreases |text| - i
  {
    if i < j {
      if text[i] == '\'' && Quoted(text, i) && text[i + 1] == '\'' {
        DoubledQuote(text, ',', i);
        if i + 2 <= j { FlagFrom(text, i + 2, j); }
      } else {
        FlagFrom(text, i + 1, j);
      }
    }
  }

  /** Stepping over doubled quotes and plainly toggling agree at every character but a quote. */
  lemma TogglesAgree(text: string, j: nat)
    requires j < |text| && text[j] != '\''
    ensures FlagAt(text, 0, false, j) == Some(Quoted(text, j))
  {
    FlagFrom(text, 0, j);
  }
}
