/** The blanking lexer: literals and comments become blanks of the same shape, line comments are
    reported by line number. */
module RustLexer {
  datatype Lexed = Lexed(code: string, comments: map<nat, string>) | IndexError

  datatype Kind = LineComment | BlockComment | RawString | Quoted | Code

  predicate Starts(t: string, i: nat, a: char, b: char)
  {
    i + 1 < |t| && t[i] == a && t[i + 1] == b
  }

  // ----- where each token ends

  function LineEnd(t: string, i: nat): (e: nat)
    requires i <= |t|
    ensures i <= e <= |t| && (forall k :: i <= k < e ==> t[k] != '\n') && (e < |t| ==> t[e] == '\n')
    decreases |t| - i
  {
    if i == |t| || t[i] == '\n' then i else LineEnd(t, i + 1)
  }

  /** Block comments nest. */
  function BlockEnd(t: string, i: nat, depth: nat): (e: nat)
    requires i <= |t|
    ensures i <= e <= |t|
    decreases |t| - i
  {
    if i == |t| || depth == 0 then i
    else if Starts(t, i, '/', '*') then BlockEnd(t, i + 2, depth + 1)
    else if Starts(t, i, '*', '/') then BlockEnd(t, i + 2, depth - 1)
    else BlockEnd(t, i + 1, depth)
  }

  function Hashes(t: string, i: nat): (h: nat)
    requires i <= |t|
    ensures i + h <= |t| && (forall k :: i <= k < i + h ==> t[k] == '#') && (i + h < |t| ==> t[i + h] != '#')
    decreases |t| - i
  {
    if i == |t| || t[i] != '#' then 0 else 1 + Hashes(t, i + 1)
  }

  /** The length of `r`, hashes and quote at `i`; zero when they are not there. */
  function RawOpen(t: string, i: nat): (n: nat)
    requires i < |t|
    ensures i + n <= |t| && n != 1
  {
    var h := Hashes(t, i + 1);
    if t[i] == 'r' && i + 1 + h < |t| && t[i + 1 + h] == '"' then h + 2 else 0
  }

  predicate RawCloses(t: string, i: nat, hashes: nat)
  {
    i + 1 + hashes <= |t| && t[i] == '"' && forall k :: i < k <= i + hashes ==> t[k] == '#'
  }

  function RawEnd(t: string, i: nat, hashes: nat): (e: nat)
    requires i <= |t|
    ensures i <= e <= |t|
    decreases |t| - i
  {
    if i == |t| then i
    else if RawCloses(t, i, hashes) then i + 1 + hashes
    else RawEnd(t, i + 1, hashes)
  }

  /** One past the closing quote, or the end; a backslash skips what follows, even past the end. */
  function QuoteEnd(t: string, i: nat, quote: char): (e: nat)
    requires i <= |t| + 1
    ensures i <= e <= |t| + 1
    decreases |t| + 2 - i
  {
    if i >= |t| then i
    else if t[i] == '\\' then QuoteEnd(t, i + 2, quote)
    else if t[i] == quote then i + 1
    else QuoteEnd(t, i + 1, quote)
  }

  /** A quote, one plain or escaped character, and a quote; anything else is a lifetime. */
  predicate CharLiteral(t: string, i: nat)
  {
    i < |t| && t[i] == '\''
    && ((i + 3 < |t| && t[i + 1] == '\\' && t[i + 2] != '\n' && t[i + 3] == '\'')
        || (i + 2 < |t| && t[i + 1] != '\\' && t[i + 1] != '\'' && t[i + 1] != '\n' && t[i + 2] == '\''))
  }

  function KindAt(t: string, i: nat): Kind
    requires i < |t|
  {
    if Starts(t, i, '/', '/') then LineComment
    else if Starts(t, i, '/', '*') then BlockComment
    else if RawOpen(t, i) > 0 then RawString
    else if t[i] == '"' || CharLiteral(t, i) then Quoted
    else Code
  }

  function EndAt(t: string, i: nat): (e: nat)
    requires i < |t|
    ensures i < e <= |t| + 1
    ensures e == |t| + 1 ==> KindAt(t, i).Quoted?
    ensures KindAt(t, i).Code? ==> e == i + 1
    ensures !KindAt(t, i).Code? ==> e >= i + 2 || e == |t|
  {
    match KindAt(t, i)
    case LineComment => assert LineEnd(t, i) >= i + 2; LineEnd(t, i)
    case BlockComment => BlockEnd(t, i + 2, 1)
    case RawString => RawEnd(t, i + RawOpen(t, i), RawOpen(t, i) - 2)
    case Quoted => QuoteEnd(t, i + 1, t[i])
    case Code => i + 1
  }

  // ----- what the lexer returns

  function BlankChar(c: char): char { if c == '\n' then '\n' else ' ' }

  function BlankOf(s: string): (r: string)
    ensures |r| == |s| && forall k :: 0 <= k < |s| ==> r[k] == BlankChar(s[k])
  {
    if s == [] then [] else BlankOf(s[..|s| - 1]) + [BlankChar(s[|s| - 1])]
  }

  function Stop(t: string, i: nat): (e: nat)
    requires i < |t|
    ensures i < e <= |t|
  {
    if EndAt(t, i) > |t| then |t| else EndAt(t, i)
  }

  /** The text from a token boundary on, with everything but code blanked. */
  function Output(t: string, i: nat): (o: string)
    requires i <= |t|
    ensures |o| == |t| - i
    decreases |t| - i
  {
    if i == |t| then []
    else (if KindAt(t, i).Code? then [t[i]] else BlankOf(t[i..Stop(t, i)])) + Output(t, Stop(t, i))
  }

  function NewlinesBefore(t: string, i: nat): nat
    requires i <= |t|
  {
    if i == 0 then 0 else NewlinesBefore(t, i - 1) + if t[i - 1] == '\n' then 1 else 0
  }

  function Comments(t: string, i: nat, found: map<nat, string>): map<nat, string>
    requires i <= |t|
    decreases |t| - i
  {
    if i == |t| then found
    else if KindAt(t, i).LineComment? then
      Comments(t, Stop(t, i), found[1 + NewlinesBefore(t, i) := t[i..Stop(t, i)]])
    else Comments(t, Stop(t, i), found)
  }

  /** Some token from `i` on runs past the end of the text. */
  predicate Overruns(t: string, i: nat)
    requires i <= |t|
    decreases |t| - i
  {
    i < |t| && (EndAt(t, i) > |t| || Overruns(t, Stop(t, i)))
  }

  function Lex(t: string): Lexed
  {
    if Overruns(t, 0) then IndexError else Lexed(Output(t, 0), Comments(t, 0, map[]))
  }

  // ----- the loops of the source

  method Blank(out: array<char>, a: nat, b: nat)
    requires a <= b <= out.Length
    modifies out
    ensures forall k :: 0 <= k < out.Length ==> out[k] == if a <= k < b then BlankChar(old(out[k])) else old(out[k])
  {
    for k := a to b
      invariant forall j :: 0 <= j < out.Length ==> out[j] == if a <= j < k then BlankChar(old(out[j])) else old(out[j])
    {
      if out[k] != '\n' {
        out[k] := ' ';
      }
    }
  }

  method ScanBlock(t: string, start: nat, line0: nat) returns (i: nat, line: nat)
    requires start < |t| && Starts(t, start, '/', '*') && line0 == 1 + NewlinesBefore(t, start)
    ensures i == BlockEnd(t, start + 2, 1) && line == 1 + NewlinesBefore(t, i)
  {
    var depth := 1;
    i, line := start + 2, line0;
    assert NewlinesBefore(t, start + 2) == NewlinesBefore(t, start + 1) == NewlinesBefore(t, start);
    while i < |t| && depth > 0
      invariant i <= |t| && line == 1 + NewlinesBefore(t, i)
      invariant BlockEnd(t, i, depth) == BlockEnd(t, start + 2, 1)
      decreases |t| - i
    {
      if Starts(t, i, '/', '*') {
        assert NewlinesBefore(t, i + 2) == NewlinesBefore(t, i + 1) == NewlinesBefore(t, i);
        depth := depth + 1;
        i := i + 2;
      } else if Starts(t, i, '*', '/') {
        assert NewlinesBefore(t, i + 2) == NewlinesBefore(t, i + 1) == NewlinesBefore(t, i);
        depth := depth - 1;
        i := i + 2;
      } else {
        if t[i] == '\n' {
          line := line + 1;
        }
        i := i + 1;
      }
    }
  }

  method ScanQuoted(t: string, start: nat) returns (i: nat)
    requires start < |t|
    ensures i == QuoteEnd(t, start + 1, t[start])
  {
    var quote := t[start];
    i := start + 1;
    while i < |t|
      invariant i <= |t| + 1 && QuoteEnd(t, i, quote) == QuoteEnd(t, start + 1, quote)
      decreases |t| + 2 - i
    {
      if t[i] == '\\' {
        i := i + 2;
        continue;
      }
      if t[i] == quote {
        i := i + 1;
        break;
      }
      i := i + 1;
    }
  }

  function CountNewlines(s: string): nat
  {
    if s == [] then 0 else CountNewlines(s[..|s| - 1]) + if s[|s| - 1] == '\n' then 1 else 0
  }

  lemma {:induction false} CountIsDifference(t: string, a: nat, b: nat)
    requires a <= b <= |t|
    ensures NewlinesBefore(t, b) == NewlinesBefore(t, a) + CountNewlines(t[a..b])
    decreases b
  {
    if a < b {
      CountIsDifference(t, a, b - 1);
      assert t[a..b][..b - a - 1] == t[a..b - 1];
    }
  }

  /** A token boundary of the lexing that starts at the beginning of the text. */
  ghost predicate Boundary(t: string, i: nat)
  {
    i <= |t| && Output(t, 0)[i..] == Output(t, i) && (Overruns(t, i) <==> Overruns(t, 0))
  }

  /** Before `i` the buffer holds the result, from `i` on the text; `line` is one more than the
      newlines before `i`. */
  ghost predicate Progress(t: string, i: nat, out: string, comments: map<nat, string>, line: nat)
  {
    && Boundary(t, i) && |out| == |t|
    && line == 1 + NewlinesBefore(t, i)
    && (forall k :: 0 <= k < |t| ==> out[k] == if k < i then Output(t, 0)[k] else t[k])
    && Comments(t, i, comments) == Comments(t, 0, map[])
  }

  lemma ProgressStarts(t: string)
    ensures Progress(t, 0, t, map[], 1)
  {
    assert Output(t, 0)[0..] == Output(t, 0);
  }

  lemma OneToken(t: string, i: nat)
    requires i < |t|
    ensures var e := Stop(t, i);
            Output(t, i) == (if KindAt(t, i).Code? then [t[i]] else BlankOf(t[i..e])) + Output(t, e)
  {}

  /** Within the first token, and beyond it. */
  lemma OutputOfToken(t: string, i: nat, k: nat)
    requires i <= k < |t|
    ensures var e := Stop(t, i);
            Output(t, i)[k - i] ==
            if k >= e then Output(t, e)[k - e] else if KindAt(t, i).Code? then t[k] else BlankChar(t[k])
  {
    hide Output, KindAt, EndAt, BlankOf, BlankChar;
    OneToken(t, i);
    var e := Stop(t, i);
    var first := if KindAt(t, i).Code? then [t[i]] else BlankOf(t[i..e]);
    IndexOfConcat(first, Output(t, e), k - i);
    if k < e {
      assert t[i..e][k - i] == t[k];
    }
  }

  lemma IndexOfConcat<T>(a: seq<T>, b: seq<T>, k: nat)
    requires k < |a| + |b|
    ensures (a + b)[k] == if k < |a| then a[k] else b[k - |a|]
  {}

  lemma BoundaryNext(t: string, i: nat)
    requires i < |t| && Boundary(t, i) && EndAt(t, i) <= |t|
    ensures Boundary(t, EndAt(t, i))
    ensures forall k :: i <= k < EndAt(t, i) ==>
              Output(t, 0)[k] == if KindAt(t, i).Code? then t[k] else BlankChar(t[k])
  {
    var e := EndAt(t, i);
    OneToken(t, i);
    assert Overruns(t, i) <==> Overruns(t, e);
    hide Output, KindAt, EndAt, Overruns;
    var o := Output(t, 0);
    assert o[e..] == o[i..][e - i..];
    assert Output(t, i)[e - i..] == Output(t, e);
    forall k | i <= k < e ensures o[k] == if KindAt(t, i).Code? then t[k] else BlankChar(t[k]) {
      assert o[k] == o[i..][k - i];
      OutputOfToken(t, i, k);
    }
  }

  lemma CommentsNext(t: string, i: nat, found: map<nat, string>)
    requires i < |t| && EndAt(t, i) <= |t|
    ensures var e := EndAt(t, i);
            Comments(t, i, found) ==
            Comments(t, e, if KindAt(t, i).LineComment? then found[1 + NewlinesBefore(t, i) := t[i..e]] else found)
  {
    hide KindAt, EndAt, NewlinesBefore;
  }

  /** Blanking a token, or passing over code, moves on to the next boundary. */
  lemma ProgressSteps(t: string, i: nat, out: string, comments: map<nat, string>, line: nat, out': string)
    requires i < |t| && Progress(t, i, out, comments, line) && EndAt(t, i) <= |t| && |out'| == |t|
    requires forall k :: 0 <= k < |t| ==>
               out'[k] == if i <= k < EndAt(t, i) && !KindAt(t, i).Code? then BlankChar(out[k]) else out[k]
    ensures Progress(t, EndAt(t, i), out',
                     if KindAt(t, i).LineComment? then comments[line := t[i..EndAt(t, i)]] else comments,
                     1 + NewlinesBefore(t, EndAt(t, i)))
  {
    hide Output, Comments, KindAt, EndAt, NewlinesBefore, Boundary, BlankChar;
    BoundaryNext(t, i);
    CommentsNext(t, i, comments);
    var e, o := EndAt(t, i), Output(t, 0);
    forall k | 0 <= k < |t| ensures out'[k] == if k < e then o[k] else t[k] {
      if k < i {
        assert out'[k] == out[k] == o[k];
      } else if k < e {
        assert out[k] == t[k];
      } else {
        assert out'[k] == out[k] == t[k];
      }
    }
  }

  method RustLex(t: string) returns (r: Lexed)
    ensures r == Lex(t)
  {
    hide Output, Comments, Overruns, Progress, EndAt, KindAt, NewlinesBefore,
      CountNewlines, CharLiteral, RawOpen, Starts;
    var n := |t|;
    var out := new char[n](k requires 0 <= k < n => t[k]);
    assert out[..] == t;
    var comments: map<nat, string> := map[];
    var i: nat, line: nat := 0, 1;
    ProgressStarts(t);
    while i < n
      invariant i <= n && Progress(t, i, out[..], comments, line)
      decreases n - i
    {
      ghost var before, found := out[..], comments;
      var start := i;
      KindIs(t, i);
      LineIs(t, i, before, comments, line);
      if Starts(t, i, '/', '/') {
        i := LineEnd(t, i);
        CommentHasNoNewline(t, start, i);
        comments := comments[line := t[start..i]];
        Blank(out, start, i);
      } else if Starts(t, i, '/', '*') {
        i, line := ScanBlock(t, i, line);
        Blank(out, start, i);
      } else if RawOpen(t, i) > 0 {
        i := RawEnd(t, i + RawOpen(t, i), RawOpen(t, i) - 2);
        CountIsDifference(t, start, i);
        line := line + CountNewlines(t[start..i]);
        Blank(out, start, i);
      } else if t[i] == '"' || CharLiteral(t, i) {
        i := ScanQuoted(t, i);
        if i > n {
          OverrunEndsIt(t, start);
          return IndexError;
        }
        CountIsDifference(t, start, i);
        line := line + CountNewlines(t[start..i]);
        Blank(out, start, i);
      } else {
        NewlineCount(t, i);
        if t[i] == '\n' {
          line := line + 1;
        }
        i := i + 1;
      }
      ghost var after := out[..];
      assert forall k :: 0 <= k < n ==>
        after[k] == if start <= k < EndAt(t, start) && !KindAt(t, start).Code? then BlankChar(before[k]) else before[k];
      ProgressSteps(t, start, before, found, 1 + NewlinesBefore(t, start), after);
    }
    ProgressEnds(t, out[..], comments, line);
    return Lexed(out[..], comments);
  }

  lemma NewlineCount(t: string, i: nat)
    requires i < |t|
    ensures NewlinesBefore(t, i + 1) == NewlinesBefore(t, i) + if t[i] == '\n' then 1 else 0
  {}

  lemma KindIs(t: string, i: nat)
    requires i < |t|
    ensures KindAt(t, i) == if Starts(t, i, '/', '/') then LineComment else if Starts(t, i, '/', '*') then BlockComment
                            else if RawOpen(t, i) > 0 then RawString
                            else if t[i] == '"' || CharLiteral(t, i) then Quoted else Code
    ensures EndAt(t, i) == match KindAt(t, i)
                           case LineComment => LineEnd(t, i)
                           case BlockComment => BlockEnd(t, i + 2, 1)
                           case RawString => RawEnd(t, i + RawOpen(t, i), RawOpen(t, i) - 2)
                           case Quoted => QuoteEnd(t, i + 1, t[i])
                           case Code => i + 1
  {}

  lemma LineIs(t: string, i: nat, out: string, comments: map<nat, string>, line: nat)
    requires Progress(t, i, out, comments, line)
    ensures Boundary(t, i) && line == 1 + NewlinesBefore(t, i)
  {}

  lemma {:induction false} CommentHasNoNewline(t: string, a: nat, b: nat)
    requires a <= b <= |t| && forall k :: a <= k < b ==> t[k] != '\n'
    ensures NewlinesBefore(t, a) == NewlinesBefore(t, b)
    decreases b
  {
    if a < b {
      CommentHasNoNewline(t, a, b - 1);
    }
  }

  lemma OverrunEndsIt(t: string, i: nat)
    requires i < |t| && Boundary(t, i) && EndAt(t, i) > |t|
    ensures Overruns(t, 0)
  {}

  lemma ProgressEnds(t: string, out: string, comments: map<nat, string>, line: nat)
    requires Progress(t, |t|, out, comments, line)
    ensures !Overruns(t, 0) && out == Output(t, 0) && comments == Comments(t, 0, map[])
  {}

  // ----- laws

  /** Same length, newlines where they were, every other character kept or blanked. */
  lemma {:induction false} OutputKeepsShape(t: string, i: nat, k: nat)
    requires i <= k < |t|
    ensures Output(t, i)[k - i] == t[k] || Output(t, i)[k - i] == BlankChar(t[k])
    ensures Output(t, i)[k - i] == '\n' <==> t[k] == '\n'
    decreases |t| - i
  {
    hide Output, KindAt, EndAt;
    OutputOfToken(t, i, k);
    if k >= Stop(t, i) {
      OutputKeepsShape(t, Stop(t, i), k);
    }
  }

  /** The boundary at or before `k` where its token starts. */
  ghost function Cover(t: string, i: nat, k: nat): (h: nat)
    requires i <= k < |t|
    ensures i <= h <= k < Stop(t, h)
    decreases |t| - i
  {
    if k < Stop(t, i) then i else Cover(t, Stop(t, i), k)
  }

  lemma {:induction false} OutputAt(t: string, i: nat, k: nat)
    requires i <= k < |t|
    ensures Output(t, i)[k - i] == if KindAt(t, Cover(t, i, k)).Code? then t[k] else BlankChar(t[k])
    decreases |t| - i
  {
    hide Output, KindAt, EndAt;
    OutputOfToken(t, i, k);
    if k >= Stop(t, i) {
      OutputAt(t, Stop(t, i), k);
    }
  }

  /** After a token, the next one starts at its end. */
  lemma {:induction false} CoverNext(t: string, i: nat, k: nat)
    requires i <= k < |t| && Stop(t, Cover(t, i, k)) == k + 1 < |t|
    ensures Cover(t, i, k + 1) == k + 1
    decreases |t| - i
  {
    if k >= Stop(t, i) {
      CoverNext(t, Stop(t, i), k);
    }
  }

  /** What is not blank in the output is code of the text. */
  lemma VisibleIsCode(t: string, k: nat)
    requires k < |t| && Output(t, 0)[k] != ' ' && Output(t, 0)[k] != '\n'
    ensures Cover(t, 0, k) == k && KindAt(t, k).Code? && Output(t, 0)[k] == t[k]
  {
    hide KindAt;
    OutputAt(t, 0, k);
  }

  /** A character after code is code too when another visible one follows it: tokens are not one
      character long unless they end the text. */
  lemma BetweenIsCode(t: string, k: nat)
    requires k + 2 < |t| && Cover(t, 0, k) == k && KindAt(t, k).Code?
    requires Output(t, 0)[k + 2] != ' ' && Output(t, 0)[k + 2] != '\n'
    ensures Cover(t, 0, k + 1) == k + 1 && KindAt(t, k + 1).Code? && Output(t, 0)[k + 1] == t[k + 1]
  {
    hide KindAt, EndAt;
    CoverNext(t, 0, k);
    VisibleIsCode(t, k + 2);
    OutputAt(t, 0, k + 1);
    if !KindAt(t, k + 1).Code? {
      StayCovered(t, 0, k + 1);
    }
  }

  /** The second character of a token is covered by the same token. */
  lemma {:induction false} StayCovered(t: string, i: nat, k: nat)
    requires i <= k && k + 1 < |t| && Cover(t, i, k) == k && !KindAt(t, k).Code?
    ensures Cover(t, i, k + 1) == k
    decreases |t| - i
  {
    if k >= Stop(t, i) {
      StayCovered(t, Stop(t, i), k);
    }
  }

  /** No token starts anywhere in the output. */
  lemma OutputIsAllCode(t: string, k: nat)
    requires k < |t|
    ensures KindAt(Output(t, 0), k).Code?
  {
    hide Output, Cover, KindAt, EndAt, CharLiteral;
    var o := Output(t, 0);
    KindIs(o, k);
    if o[k] == ' ' || o[k] == '\n' {
      assert !CharLiteral(o, k) by { BlankIsNoLiteral(o, k); }
    } else {
      VisibleIsCode(t, k);
      NoComment(t, k);
      NoRaw(t, k);
      NoChar(t, k);
    }
  }

  lemma BlankIsNoLiteral(o: string, k: nat)
    requires k < |o| && (o[k] == ' ' || o[k] == '\n')
    ensures !CharLiteral(o, k)
  {}

  lemma NoComment(t: string, k: nat)
    requires k < |t| && Output(t, 0)[k] == t[k] && KindAt(t, k).Code?
    ensures !Starts(Output(t, 0), k, '/', '/') && !Starts(Output(t, 0), k, '/', '*')
    ensures t[k] != '"'
  {
    hide Output, Cover;
    if k + 1 < |t| && (Output(t, 0)[k + 1] == '/' || Output(t, 0)[k + 1] == '*') {
      VisibleIsCode(t, k + 1);
    }
  }

  lemma NoRaw(t: string, k: nat)
    requires k < |t| && Output(t, 0)[k] == t[k] && KindAt(t, k).Code?
    ensures RawOpen(Output(t, 0), k) == 0
  {
    hide Output, Cover;
    var o := Output(t, 0);
    var h := Hashes(o, k + 1);
    if t[k] == 'r' && k + 1 + h < |t| && o[k + 1 + h] == '"' {
      forall j | k < j <= k + 1 + h ensures o[j] == t[j] {
        VisibleIsCode(t, j);
      }
      SameHashes(o, t, k + 1, h);
    }
  }

  lemma {:induction false} SameHashes(o: string, t: string, i: nat, h: nat)
    requires |o| == |t| && i + h < |t| && (forall j :: i <= j <= i + h ==> o[j] == t[j])
    requires (forall j :: i <= j < i + h ==> o[j] == '#') && o[i + h] != '#'
    ensures Hashes(t, i) == h
    decreases h
  {
    if h > 0 {
      SameHashes(o, t, i + 1, h - 1);
    }
  }

  lemma NoChar(t: string, k: nat)
    requires k < |t| && Output(t, 0)[k] == t[k] && Cover(t, 0, k) == k && KindAt(t, k).Code?
    ensures !CharLiteral(Output(t, 0), k)
  {
    hide Output, Cover;
    var o := Output(t, 0);
    if CharLiteral(o, k) {
      if o[k + 1] == '\\' {
        VisibleIsCode(t, k + 1);
        BetweenIsCode(t, k + 1);
        VisibleIsCode(t, k + 3);
      } else {
        BetweenIsCode(t, k);
        VisibleIsCode(t, k + 2);
      }
    }
  }

  lemma {:induction false} AllCodeStays(o: string, i: nat, found: map<nat, string>)
    requires i <= |o| && forall k :: 0 <= k < |o| ==> KindAt(o, k).Code?
    ensures Output(o, i) == o[i..] && Comments(o, i, found) == found && !Overruns(o, i)
    decreases |o| - i
  {
    hide KindAt;
    if i < |o| {
      AllCodeStays(o, i + 1, found);
      assert o[i..] == [o[i]] + o[i + 1..];
    }
  }

  /** Lexing the output again changes nothing, reports no comment and cannot fail. */
  lemma LexIsIdempotent(t: string)
    requires Lex(t).Lexed?
    ensures Lex(Lex(t).code) == Lexed(Lex(t).code, map[])
  {
    var o := Output(t, 0);
    forall k | 0 <= k < |o| ensures KindAt(o, k).Code? {
      OutputIsAllCode(t, k);
    }
    AllCodeStays(o, 0, map[]);
    assert o[0..] == o;
  }

  // ----- exactly when the index error strikes

  /** How many backslashes end `t[lo..hi]`. */
  function Backslashes(t: string, lo: nat, hi: nat): nat
    requires lo <= hi <= |t|
  {
    if lo == hi || t[hi - 1] != '\\' then 0 else 1 + Backslashes(t, lo, hi - 1)
  }

  lemma {:induction false} EscapePairKeepsParity(t: string, lo: nat, hi: nat)
    requires lo + 2 <= hi <= |t| && t[lo] == '\\'
    ensures Backslashes(t, lo, hi) % 2 == Backslashes(t, lo + 2, hi) % 2
    decreases hi
  {
    if hi == lo + 2 {
      assert Backslashes(t, lo, lo + 1) == 1 + Backslashes(t, lo, lo);
    } else {
      EscapePairKeepsParity(t, lo, hi - 1);
    }
  }

  lemma {:induction false} OtherCharacterStopsRun(t: string, lo: nat, h: nat, hi: nat)
    requires lo <= h < hi <= |t| && t[h] != '\\'
    ensures Backslashes(t, lo, hi) == Backslashes(t, h + 1, hi)
    decreases hi
  {
    if hi > h + 1 {
      OtherCharacterStopsRun(t, lo, h, hi - 1);
    }
  }

  /** A literal that is still open at the end overruns it exactly after an odd run of backslashes. */
  lemma {:induction false} OpenLiteralParity(t: string, i: nat, quote: char)
    requires i <= |t| && quote != '\\' && QuoteEnd(t, i, quote) >= |t|
    ensures QuoteEnd(t, i, quote) == |t| + 1 <==> Backslashes(t, i, |t|) % 2 == 1
    decreases |t| - i
  {
    if i < |t| {
      if t[i] == '\\' {
        if i + 1 == |t| {
          assert Backslashes(t, i, i) == 0;
        } else {
          OpenLiteralParity(t, i + 2, quote);
          EscapePairKeepsParity(t, i, |t|);
        }
      } else {
        OtherCharacterStopsRun(t, i, i, |t|);
        if t[i] != quote {
          OpenLiteralParity(t, i + 1, quote);
        }
      }
    }
  }

  lemma {:induction false} OnlyLastTokenOverruns(t: string, i: nat)
    requires i < |t|
    ensures Overruns(t, i) <==> EndAt(t, Cover(t, i, |t| - 1)) > |t|
    decreases |t| - i
  {
    hide KindAt, EndAt;
    if |t| - 1 >= Stop(t, i) {
      OnlyLastTokenOverruns(t, Stop(t, i));
    }
  }

  /** Lexing fails exactly on a text that ends in an odd number of backslashes inside a quoted literal. */
  lemma FailsExactly(t: string)
    ensures Lex(t).IndexError? <==>
              t != "" && Backslashes(t, 0, |t|) % 2 == 1 && KindAt(t, Cover(t, 0, |t| - 1)).Quoted?
  {
    hide KindAt, Cover;
    if t != "" {
      OnlyLastTokenOverruns(t, 0);
      var h := Cover(t, 0, |t| - 1);
      if KindAt(t, h).Quoted? {
        KindIs(t, h);
        hide EndAt;
        OpenLiteralParity(t, h + 1, t[h]);
        OtherCharacterStopsRun(t, 0, h, |t|);
      }
    }
  }

  /** The shortest such text: a quote and a backslash. */
  lemma FailsOnOpenEscape()
    ensures Lex("\"\\") == IndexError
  {
    var t := "\"\\";
    KindIs(t, 0);
    assert QuoteEnd(t, 1, t[0]) == 3;
  }

  // ----- comments are reported by their own line

  lemma {:induction false} NewlinesGrow(t: string, a: nat, b: nat)
    requires a <= b <= |t|
    ensures NewlinesBefore(t, a) <= NewlinesBefore(t, b)
    decreases b
  {
    if a < b {
      NewlinesGrow(t, a, b - 1);
    }
  }

  /** A line comment that lexing from `i` on meets at `h`, on line `line`. */
  ghost predicate CommentAt(t: string, i: nat, h: nat, line: nat)
  {
    i <= h < |t| && Cover(t, i, h) == h && KindAt(t, h).LineComment? && line == 1 + NewlinesBefore(t, h)
  }

  /** The next comment is on a later line. */
  lemma LaterComment(t: string, i: nat, h: nat, line: nat)
    requires i < |t| && KindAt(t, i).LineComment? && CommentAt(t, Stop(t, i), h, line)
    ensures line > 1 + NewlinesBefore(t, i)
  {
    var e := LineEnd(t, i);
    CommentHasNoNewline(t, i, e);
    assert h > e;
    NewlinesGrow(t, e + 1, h);
  }

  lemma {:induction false} CommentKept(t: string, i: nat, found: map<nat, string>, line: nat)
    requires i <= |t| && line in found
    requires forall h :: !CommentAt(t, i, h, line)
    ensures line in Comments(t, i, found) && Comments(t, i, found)[line] == found[line]
    decreases |t| - i
  {
    if i < |t| {
      var e := Stop(t, i);
      forall h ensures !CommentAt(t, e, h, line) {
        assert CommentAt(t, e, h, line) ==> CommentAt(t, i, h, line);
      }
      assert !CommentAt(t, i, i, line);
      hide KindAt, EndAt, CommentAt;
      if KindAt(t, i).LineComment? {
        CommentKept(t, e, found[1 + NewlinesBefore(t, i) := t[i..e]], line);
      } else {
        CommentKept(t, e, found, line);
      }
    }
  }

  /** Every line comment of the text is reported under its line, whole. */
  lemma {:induction false} CommentsAreReported(t: string, i: nat, found: map<nat, string>, h: nat, line: nat)
    requires CommentAt(t, i, h, line)
    ensures line in Comments(t, i, found) && Comments(t, i, found)[line] == t[h..LineEnd(t, h)]
    decreases |t| - i
  {
    var e := Stop(t, i);
    var found' := if KindAt(t, i).LineComment? then found[1 + NewlinesBefore(t, i) := t[i..e]] else found;
    if h == i {
      assert e == LineEnd(t, h);
      forall h' ensures !CommentAt(t, e, h', line) {
        if CommentAt(t, e, h', line) {
          LaterComment(t, i, h', line);
        }
      }
      CommentKept(t, e, found', line);
    } else {
      hide KindAt, EndAt;
      CommentsAreReported(t, e, found', h, line);
    }
  }

  /** Nothing else is reported. */
  lemma {:induction false} ReportsAreComments(t: string, i: nat, found: map<nat, string>, line: nat)
    requires i <= |t| && line in Comments(t, i, found) && line !in found
    ensures exists h :: CommentAt(t, i, h, line)
    decreases |t| - i
  {
    hide EndAt, KindAt;
    var e := Stop(t, i);
    if KindAt(t, i).LineComment? && line == 1 + NewlinesBefore(t, i) {
      assert CommentAt(t, i, i, line);
    } else {
      ReportsAreComments(t, e,
                         if KindAt(t, i).LineComment? then found[1 + NewlinesBefore(t, i) := t[i..e]] else found, line);
      var h :| CommentAt(t, e, h, line);
      assert CommentAt(t, i, h, line);
    }
  }
}
