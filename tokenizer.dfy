/**
 * Splitting one input row into numbers, as `read_n_nums` of the linear-solver
 * test does with `strtok` over the delimiters " \t\n\r" and `sscanf("%lf")`.
 * The conversion of a token to a number is the parameter `scan`.
 */
module Tokenizer {
  import opened Wrappers

  predicate IsDelimiter(c: char)
  {
    c == ' ' || c == '\t' || c == '\n' || c == '\r'
  }

  /** The longest prefix of `s` without a delimiter. */
  function Word(s: string): (w: string)
    ensures |w| <= |s| && w == s[..|w|]
    ensures forall i :: 0 <= i < |w| ==> !IsDelimiter(s[i])
    ensures |w| == |s| || IsDelimiter(s[|w|])
  {
    if s == [] || IsDelimiter(s[0]) then [] else [s[0]] + Word(s[1..])
  }

  /** The tokens `strtok` returns one after the other: maximal runs of non-delimiters. */
  function Tokens(s: string): (ts: seq<string>)
    ensures |ts| <= (|s| + 1) / 2
    decreases |s|
  {
    if s == [] then []
    else if IsDelimiter(s[0]) then Tokens(s[1..])
    else
      var w := Word(s);
      [w] + Tokens(s[|w|..])
  }

  predicate IsWord(w: string)
  {
    w != [] && forall i :: 0 <= i < |w| ==> !IsDelimiter(w[i])
  }

  /** The tokens are non-empty and contain no delimiter. */
  lemma {:induction false} TokensAreWords(s: string)
    ensures forall j :: 0 <= j < |Tokens(s)| ==> IsWord(Tokens(s)[j])
    decreases |s|
  {
    if s != [] {
      if IsDelimiter(s[0]) {
        TokensAreWords(s[1..]);
      } else {
        TokensAreWords(s[|Word(s)|..]);
      }
    }
  }

  /** `m` is the length of the first word of `s` when the prefix of length m has no delimiter and a delimiter or the end follows. */
  lemma WordHasLength(s: string, m: nat)
    requires m <= |s|
    requires forall i :: 0 <= i < m ==> !IsDelimiter(s[i])
    requires m == |s| || IsDelimiter(s[m])
    ensures Word(s) == s[..m]
  {
  }

  /** Words separated by single blanks. */
  function Joined(ws: seq<string>): string
  {
    if ws == [] then []
    else if |ws| == 1 then ws[0]
    else ws[0] + " " + Joined(ws[1..])
  }

  /** Splitting blank-joined words gives the words back. */
  lemma {:induction false} TokensOfJoined(ws: seq<string>)
    requires forall j :: 0 <= j < |ws| ==> IsWord(ws[j])
    ensures Tokens(Joined(ws)) == ws
  {
    if ws == [] {
    } else if |ws| == 1 {
      var w := ws[0];
      WordHasLength(w, |w|);
      assert w[..|w|] == w && w[|w|..] == [];
      assert !IsDelimiter(w[0]);
      assert Joined(ws) == w;
    } else {
      var w, rest := ws[0], Joined(ws[1..]);
      var s := w + " " + rest;
      assert Joined(ws) == s;
      WordHasLength(s, |w|);
      assert s[..|w|] == w;
      assert s[|w|..] == " " + rest;
      assert (" " + rest)[1..] == rest;
      TokensOfJoined(ws[1..]);
    }
  }

  /** The first position at or after `from` that holds no delimiter; the skipped part yields no token. */
  method SkipDelimiters(row: string, from: nat) returns (p: nat)
    requires from <= |row|
    ensures from <= p <= |row| && (p == |row| || !IsDelimiter(row[p]))
    ensures Tokens(row[from..]) == Tokens(row[p..])
    ensures p == |row| <==> Tokens(row[from..]) == []
  {
    p := from;
    while p < |row| && IsDelimiter(row[p])
      invariant from <= p <= |row|
      invariant Tokens(row[from..]) == Tokens(row[p..])
    {
      assert row[p..][1..] == row[p + 1..];
      p := p + 1;
    }
    assert row[|row|..] == [];
  }

  /** The end of the word that starts at `p`. */
  method WordEnd(row: string, p: nat) returns (q: nat)
    requires p <= |row|
    ensures p <= q <= |row| && Word(row[p..]) == row[p..q]
  {
    q := p;
    while q < |row| && !IsDelimiter(row[q])
      invariant p <= q <= |row|
      invariant forall i :: p <= i < q ==> !IsDelimiter(row[i])
    {
      q := q + 1;
    }
    WordHasLength(row[p..], q - p);
  }

  /** A delimiter yields no token. */
  lemma TokensAfterDelimiter(row: string, q: nat)
    requires q < |row| && IsDelimiter(row[q])
    ensures Tokens(row[q..]) == Tokens(row[q + 1..])
  {
    assert row[q..][1..] == row[q + 1..];
  }

  /**
   * The word at `p`, ending at `q`, is the first token of `row[p..]`; the
   * tokens after it are those from `next`, just past the delimiter that ends it.
   */
  lemma TokenAt(row: string, p: nat, q: nat, next: nat)
    requires p < q <= |row| && Word(row[p..]) == row[p..q]
    requires next == if q < |row| then q + 1 else q
    ensures Tokens(row[p..]) != [] && Tokens(row[p..])[0] == row[p..q] && Tokens(row[p..])[1..] == Tokens(row[next..])
  {
    assert row[p..][q - p..] == row[q..];
    assert Tokens(row[p..]) == [row[p..q]] + Tokens(row[q..]);
    if q < |row| {
      TokensAfterDelimiter(row, q);
    }
  }

  /** One call to `strtok`: the next token at or after `from`, and where the next call resumes. */
  method NextToken(row: string, from: nat) returns (token: Option<string>, next: nat)
    requires from <= |row|
    ensures next <= |row|
    ensures token.None? <==> Tokens(row[from..]) == []
    ensures token.Some? ==> token.value == Tokens(row[from..])[0] && Tokens(row[next..]) == Tokens(row[from..])[1..]
  {
    var p := SkipDelimiters(row, from);
    if p == |row| {
      return None, p;
    }
    var q := WordEnd(row, p);
    next := if q < |row| then q + 1 else q;
    TokenAt(row, p, q, next);
    token := Some(row[p..q]);
  }

  /** The tokens of each row of a file. */
  function TokenRows(rows: seq<string>): seq<seq<string>>
  {
    seq(|rows|, i requires 0 <= i < |rows| => Tokens(rows[i]))
  }

  /** The first `n` numbers of a row's tokens, or None when there are fewer than `n`; further tokens are ignored. */
  function ReadN(tokens: seq<string>, n: nat, scan: string -> real): (r: Option<seq<real>>)
    ensures r.Some? <==> |tokens| >= n
    ensures r.Some? ==> |r.value| == n && forall j :: 0 <= j < n ==> r.value[j] == scan(tokens[j])
  {
    if |tokens| >= n then Some(seq(n, j requires 0 <= j < n => scan(tokens[j]))) else None
  }

  /**
   * read_n_nums: converts tokens into `values` from index 0 until `n` are stored
   * or the row runs out; true exactly when `n` were stored.
   */
  method ReadNNums(row: string, n: nat, values: array<real>, scan: string -> real) returns (ok: bool)
    requires n <= values.Length
    modifies values
    ensures ok <==> |Tokens(row)| >= n
    ensures ok ==> ReadN(Tokens(row), n, scan) == Some(values[..n])
    ensures forall j :: 0 <= j < values.Length ==>
              values[j] == if j < n && j < |Tokens(row)| then scan(Tokens(row)[j]) else old(values[j])
  {
    ghost var ts := Tokens(row);
    var i := 0;
    var token: Option<string>, pos: nat := NextToken(row, 0);
    assert row[0..] == row;
    while token.Some? && i < n
      invariant 0 <= i <= n && i <= |ts|
      invariant pos <= |row|
      invariant token.None? <==> i == |ts|
      invariant token.Some? ==> token.value == ts[i] && Tokens(row[pos..]) == ts[i + 1..]
      invariant forall j :: 0 <= j < values.Length ==>
                  values[j] == if j < i then scan(ts[j]) else old(values[j])
    {
      values[i] := scan(token.value);
      i := i + 1;
      ghost var rest := Tokens(row[pos..]);
      token, pos := NextToken(row, pos);
      assert rest == ts[i..];
    }
    ok := i == n;
    if ok {
      assert values[..n] == seq(n, j requires 0 <= j < n => scan(ts[j]));
    }
  }
}
