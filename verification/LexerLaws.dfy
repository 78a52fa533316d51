/** Which token starts at a position and where it ends, said of the characters alone. */
module LexerLaws {
  import opened RustLexer

  // ----- which token

  /** `r`, hashes, and a quotation mark. */
  predicate OpensRaw(t: string, i: nat, hashes: nat)
  {
    && i + hashes + 1 < |t| && t[i] == 'r' && t[i + hashes + 1] == '"'
    && forall k :: i < k <= i + hashes ==> t[k] == '#'
  }

  lemma RawOpenExactly(t: string, i: nat, hashes: nat)
    requires i < |t|
    ensures RawOpen(t, i) == hashes + 2 <==> OpensRaw(t, i, hashes)
    ensures RawOpen(t, i) == 0 <==> forall h :: !OpensRaw(t, i, h)
  {
    var n := Hashes(t, i + 1);
    forall h | OpensRaw(t, i, h) ensures h == n {
      SameHashes(t, t, i + 1, h);
    }
    assert RawOpen(t, i) > 0 ==> OpensRaw(t, i, n);
  }

  /** A token at `i`: a line comment at two slashes, a block comment at slash and star, a raw literal at
      its opening, a quoted literal at a quotation mark or at a character literal, which is one character
      other than a quote, backslash or newline between single quotes, or a backslash and any character but
      a newline between them; code otherwise. */
  lemma KindExactly(t: string, i: nat)
    requires i < |t|
    ensures KindAt(t, i).LineComment? <==> "//" <= t[i..]
    ensures KindAt(t, i).BlockComment? <==> "/*" <= t[i..]
    ensures KindAt(t, i).RawString? <==> exists h :: OpensRaw(t, i, h)
    ensures KindAt(t, i).Quoted? <==> t[i] == '"' || IsChar(t, i)
    ensures KindAt(t, i).Code? <==>
              !("//" <= t[i..]) && !("/*" <= t[i..]) && (forall h :: !OpensRaw(t, i, h)) && t[i] != '"' && !IsChar(t, i)
  {
    RawOpenExactly(t, i, 0);
    StartsWith(t, i, '/', '/');
    StartsWith(t, i, '/', '*');
    hide RawOpen;
    if h :| OpensRaw(t, i, h) {
      assert t[i] == 'r';
    }
  }

  predicate IsChar(t: string, i: nat)
  {
    || (i + 3 <= |t| && t[i] == t[i + 2] == '\'' && t[i + 1] !in {'\'', '\\', '\n'})
    || (i + 4 <= |t| && t[i] == t[i + 3] == '\'' && t[i + 1] == '\\' && t[i + 2] != '\n')
  }

  lemma StartsWith(t: string, i: nat, a: char, b: char)
    requires i < |t|
    ensures Starts(t, i, a, b) <==> [a, b] <= t[i..]
  {
    if Starts(t, i, a, b) {
      assert t[i..] == [a, b] + t[i + 2..];
    }
    if [a, b] <= t[i..] {
      assert t[i..][0] == a && t[i..][1] == b;
    }
  }

  // ----- where a nested comment ends

  /** Scanning `t` from `ps[0]` by openers, closers and single characters, with the nesting at each stop;
      the nesting is positive at every stop but the last. */
  ghost predicate Scan(t: string, ps: seq<nat>, ds: seq<nat>)
  {
    && |ps| == |ds| > 0 && ps[|ps| - 1] <= |t|
    && forall k :: 0 <= k < |ps| - 1 ==> ds[k] > 0 && ps[k] < |t| && ScanStep(t, ps[k], ds[k], ps[k + 1], ds[k + 1])
  }

  predicate ScanStep(t: string, p: nat, d: nat, p': nat, d': nat)
    requires p < |t|
  {
    if "/*" <= t[p..] then p' == p + 2 && d' == d + 1
    else if "*/" <= t[p..] then p' == p + 2 && d' == d - 1
    else p' == p + 1 && d' == d
  }

  /** A block comment ends where openers and closers first balance, or with the text. */
  lemma {:induction false} BlockEndBalances(t: string, i: nat, depth: nat) returns (ps: seq<nat>, ds: seq<nat>)
    requires i <= |t|
    ensures Scan(t, ps, ds) && ps[0] == i && ds[0] == depth
    ensures ps[|ps| - 1] == BlockEnd(t, i, depth) && (ds[|ds| - 1] == 0 || ps[|ps| - 1] == |t|)
    decreases |t| - i
  {
    if i == |t| || depth == 0 {
      return [i], [depth];
    }
    StartsWith(t, i, '/', '*');
    StartsWith(t, i, '*', '/');
    var p: nat := if Starts(t, i, '/', '*') || Starts(t, i, '*', '/') then i + 2 else i + 1;
    var d: nat := if Starts(t, i, '/', '*') then depth + 1 else if Starts(t, i, '*', '/') then depth - 1 else depth;
    ps, ds := BlockEndBalances(t, p, d);
    assert ScanStep(t, i, depth, p, d);
    hide Starts, BlockEnd;
    ps, ds := [i] + ps, [depth] + ds;
  }

  // ----- where a raw literal ends

  /** A quotation mark followed by as many hashes as the literal opened with. */
  predicate ClosesRaw(t: string, j: nat, hashes: nat)
  {
    j + hashes < |t| && t[j] == '"' && forall k :: j < k <= j + hashes ==> t[k] == '#'
  }

  /** A raw literal ends after the first such quotation mark, or with the text if there is none. */
  lemma {:induction false} RawEndIsFirst(t: string, i: nat, hashes: nat)
    requires i <= |t|
    ensures (exists j :: i <= j && ClosesRaw(t, j, hashes)) || RawEnd(t, i, hashes) == |t|
    ensures forall j :: i <= j && ClosesRaw(t, j, hashes) && (forall m :: i <= m < j ==> !ClosesRaw(t, m, hashes)) ==>
              RawEnd(t, i, hashes) == j + 1 + hashes
    decreases |t| - i
  {
    if i < |t| && !RawCloses(t, i, hashes) {
      RawEndIsFirst(t, i + 1, hashes);
      assert !ClosesRaw(t, i, hashes);
    }
    if i < |t| && RawCloses(t, i, hashes) {
      assert ClosesRaw(t, i, hashes);
    }
  }

  // ----- where a quoted literal ends

  /** The closing quote: not behind an odd run of backslashes that starts in the literal. */
  predicate ClosesQuote(t: string, i: nat, j: nat, quote: char)
    requires i <= j < |t|
  {
    t[j] == quote && Backslashes(t, i, j) % 2 == 0
  }

  /** Behind an escaped character, and behind any other than the quote, the same quotes close. */
  lemma ClosesBehind(t: string, i: nat, next: nat, j: nat, quote: char)
    requires i < next <= j < |t| && quote != '\\'
    requires if t[i] == '\\' then next == i + 2 else next == i + 1
    ensures ClosesQuote(t, i, j, quote) <==> ClosesQuote(t, next, j, quote)
  {
    if t[i] == '\\' {
      EscapePairKeepsParity(t, i, j);
    } else {
      OtherCharacterStopsRun(t, i, i, j);
    }
  }

  /** A quoted literal ends after the first quote that no backslash escapes. */
  lemma {:induction false} QuoteEndIsFirst(t: string, i: nat, quote: char, j: nat)
    requires i <= j < |t| && quote != '\\' && ClosesQuote(t, i, j, quote)
    requires forall m :: i <= m < j ==> !ClosesQuote(t, i, m, quote)
    ensures QuoteEnd(t, i, quote) == j + 1
    decreases |t| - i
  {
    assert Backslashes(t, i, i) == 0;
    assert ClosesQuote(t, i, i, quote) <==> t[i] == quote;
    if t[i] != quote {
      var next := if t[i] == '\\' then i + 2 else i + 1;
      assert t[i] == '\\' ==> Backslashes(t, i, i + 1) == 1;
      forall m | next <= m <= j ensures ClosesQuote(t, i, m, quote) <==> ClosesQuote(t, next, m, quote) {
        ClosesBehind(t, i, next, m, quote);
      }
      QuoteEndIsFirst(t, next, quote, j);
    }
  }

  /** Without such a quote it runs to the end of the text or one past it. */
  lemma {:induction false} QuoteEndWithoutQuote(t: string, i: nat, quote: char)
    requires i <= |t| && quote != '\\' && forall m :: i <= m < |t| ==> !ClosesQuote(t, i, m, quote)
    ensures QuoteEnd(t, i, quote) >= |t|
    decreases |t| - i
  {
    if i < |t| {
      assert Backslashes(t, i, i) == 0;
      assert !ClosesQuote(t, i, i, quote);
      var next := if t[i] == '\\' then i + 2 else i + 1;
      if next <= |t| {
        forall m | next <= m < |t| ensures !ClosesQuote(t, next, m, quote) {
          ClosesBehind(t, i, next, m, quote);
        }
        QuoteEndWithoutQuote(t, next, quote);
      }
    }
  }
}
