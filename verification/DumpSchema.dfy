/** The two scanners of a schema dump (apps/etl/src/dump-schema.ts). */
module DumpSchema {
  import opened Wrappers
  import opened Text

  predicate IsQuote(c: char) {
    c == '\'' || c == '"' || c == '`'
  }

  /** Where a reader is: in plain text, in a string, past a backslash in one, or past a quote that either
      closes the string or is the first of a doubled one. */
  datatype Mode = InText | Quoted(quote: char) | Escaped(quote: char) | Closing(quote: char)

  datatype Lex = Lex(mode: Mode, depth: int)

  const START := Lex(InText, 0)

  function TextStep(depth: int, c: char): Lex {
    if IsQuote(c) then Lex(Quoted(c), depth)
    else Lex(InText, if c == '(' then depth + 1 else if c == ')' then depth - 1 else depth)
  }

  function Step(l: Lex, c: char): Lex {
    match l.mode
    case InText => TextStep(l.depth, c)
    case Quoted(q) => l.(mode := if c == '\\' then Escaped(q) else if c == q then Closing(q) else l.mode)
    case Escaped(q) => l.(mode := Quoted(q))
    case Closing(q) => if c == q then l.(mode := Quoted(q)) else TextStep(l.depth, c)
  }

  /** After the first k characters, starting from l. */
  function After(l: Lex, s: string, k: nat): Lex
    requires k <= |s|
  {
    if k == 0 then l else Step(After(l, s, k - 1), s[k - 1])
  }

  predicate Outside(l: Lex) {
    l.mode == InText || l.mode.Closing?
  }

  /** The k-th character is an unquoted ')' that brings the depth back to zero. */
  predicate Closes(s: string, k: nat) {
    k < |s| && s[k] == ')' && Outside(After(START, s, k)) && After(START, s, k).depth == 1
  }

  /** The k-th character is an unquoted comma outside every parenthesis. */
  predicate Cuts(s: string, k: nat) {
    k < |s| && s[k] == ',' && Outside(After(START, s, k)) && After(START, s, k).depth == 0
  }

  datatype Scan = Scan(end: nat, text: string)

  /** The group that opens at `open` ends at the first unquoted return to depth zero, if there is one. */
  ghost predicate ReadsAs(sql: string, open: nat, group: Option<Scan>)
    requires open <= |sql|
  {
    match group
    case Some(scan) =>
      exists k: nat :: 0 < k && Closes(sql[open..], k) && (forall j: nat :: j < k ==> !Closes(sql[open..], j))
        && scan == Scan(open + k + 1, sql[open..][1..k])
    case None => forall k: nat :: !Closes(sql[open..], k)
  }

  /** How the scanners' quote variable stands for a mode, at a character they have not read yet. */
  predicate Stands(quote: Option<char>, l: Lex, s: string, i: nat) {
    match quote
    case Some(q) => l.mode == Quoted(q)
    case None => l.mode == InText || (l.mode.Closing? && (i >= |s| || s[i] != l.mode.quote))
  }

  method ReadBalanced(sql: string, open: nat) returns (group: Option<Scan>)
    requires open <= |sql|
    ensures ReadsAs(sql, open, group)
  {
    ghost var s := sql[open..];
    var depth, i := 0, open;
    var quote: Option<char> := None;
    while i < |sql|
      invariant open <= i && (quote.Some? ==> IsQuote(quote.value))
      invariant i <= |sql| ==>
                  After(START, s, i - open).depth == depth && Stands(quote, After(START, s, i - open), s, i - open)
      invariant forall j: nat :: j < i - open ==> !Closes(s, j)
    {
      ghost var k: nat := i - open;
      var ch := sql[i];
      assert ch == s[k] && (i + 1 < |sql| ==> sql[i + 1] == s[k + 1]);
      if quote.Some? {
        if ch == '\\' {
          assert !Closes(s, k) && !Closes(s, k + 1);
          i := i + 2;
          continue;
        }
        if ch == quote.value {
          if i + 1 < |sql| && sql[i + 1] == quote.value {
            assert !Closes(s, k) && !Closes(s, k + 1);
            i := i + 2;
            continue;
          }
          quote := None;
        }
        i := i + 1;
        continue;
      }
      if IsQuote(ch) {
        quote := Some(ch);
        i := i + 1;
        continue;
      }
      if ch == '(' {
        depth := depth + 1;
        i := i + 1;
        continue;
      }
      if ch == ')' {
        depth := depth - 1;
        if depth == 0 {
          assert k > 0 && Closes(s, k) && sql[open + 1..i] == s[1..k];
          return Some(Scan(i + 1, sql[open + 1..i]));
        }
        i := i + 1;
        continue;
      }
      i := i + 1;
    }
    group := None;
  }

  function Pieces(s: string, start: nat, i: nat): seq<string>
    requires start <= i <= |s|
    decreases |s| - i
  {
    if i == |s| then [s[start..]]
    else if Cuts(s, i) then [s[start..i]] + Pieces(s, i + 1, i + 1)
    else Pieces(s, start, i + 1)
  }

  /** Trimmed, and without the blank ones. */
  function Cleaned(parts: seq<string>): seq<string> {
    if parts == [] then [] else (if Trimmed(parts[0]) == "" then [] else [Trimmed(parts[0])]) + Cleaned(parts[1..])
  }

  method SplitColumns(body: string) returns (columns: seq<string>)
    ensures columns == Cleaned(Pieces(body, 0, 0))
  {
    var parts: seq<string> := [];
    var depth, start, i := 0, 0, 0;
    var quote: Option<char> := None;
    while i < |body|
      invariant 0 <= start <= |body| && start <= i && (quote.Some? ==> IsQuote(quote.value))
      invariant i <= |body| ==> After(START, body, i).depth == depth && Stands(quote, After(START, body, i), body, i)
      invariant i <= |body| ==> parts + Pieces(body, start, i) == Pieces(body, 0, 0)
      invariant i > |body| ==> parts + [body[start..]] == Pieces(body, 0, 0)
    {
      var ch := body[i];
      if quote.Some? {
        if ch == '\\' {
          assert i + 1 < |body| ==> !Cuts(body, i + 1);
          i := i + 2;
          continue;
        }
        if ch == quote.value {
          if i + 1 < |body| && body[i + 1] == quote.value {
            assert !Cuts(body, i) && !Cuts(body, i + 1);
            i := i + 2;
            continue;
          }
          quote := None;
        }
        i := i + 1;
        continue;
      }
      if IsQuote(ch) {
        quote := Some(ch);
        i := i + 1;
        continue;
      }
      if ch == '(' {
        depth := depth + 1;
      } else if ch == ')' {
        depth := depth - 1;
      } else if ch == ',' && depth == 0 {
        parts := parts + [body[start..i]];
        start := i + 1;
      }
      i := i + 1;
    }
    parts := parts + [body[start..]];
    columns := Cleaned(parts);
  }

  // ---- what a dump writes is what is read ----

  function Join(defs: seq<string>): string {
    if defs == [] then "" else if |defs| == 1 then defs[0] else defs[0] + "," + Join(defs[1..])
  }

  /** Parentheses balance, strings are closed, no comma is at the top level. */
  ghost predicate WellFormed(s: string) {
    && (forall k: nat :: k <= |s| ==> After(START, s, k).depth >= 0)
    && Outside(After(START, s, |s|)) && After(START, s, |s|).depth == 0
  }

  ghost predicate Definition(d: string) {
    d != "" && !IsSpace(d[0]) && !IsSpace(d[|d| - 1]) && WellFormed(d) && forall k: nat :: !Cuts(d, k)
  }

  lemma {:induction false} AfterPrefix(l: Lex, a: string, b: string, k: nat)
    requires k <= |a|
    ensures After(l, a + b, k) == After(l, a, k)
  {
    if k == 0 {
    } else {
      AfterPrefix(l, a, b, k - 1);
    }
  }

  lemma {:induction false} AfterSuffix(l: Lex, a: string, b: string, k: nat)
    requires k <= |b|
    ensures After(l, a + b, |a| + k) == After(After(l, a, |a|), b, k)
  {
    if k == 0 { AfterPrefix(l, a, b, |a|); } else { AfterSuffix(l, a, b, k - 1); }
  }

  lemma {:induction false} InsideAQuote(s: string, k: nat)
    requires k <= |s|
    ensures var mode := After(START, s, k).mode; mode.InText? || IsQuote(mode.quote)
  {
    if k == 0 {
    } else {
      InsideAQuote(s, k - 1);
    }
  }

  /** Opening a parenthesis first only deepens what follows. */
  lemma {:induction false} AfterDeeper(s: string, k: nat, n: int)
    requires k <= |s|
    ensures After(Lex(InText, n), s, k) == Lex(After(START, s, k).mode, After(START, s, k).depth + n)
  {
    if k == 0 {
    } else {
      AfterDeeper(s, k - 1, n);
    }
  }

  /** After a definition and its comma the reader is where it started. */
  lemma Restarts(d: string, rest: string, k: nat)
    requires WellFormed(d) && k <= |rest|
    ensures After(START, d + "," + rest, |d| + 1 + k) == After(START, rest, k)
  {
    AfterSuffix(START, d, ",", 1);
    InsideAQuote(d, |d|);
    assert After(START, d + ",", |d| + 1) == START;
    AfterSuffix(START, d + ",", rest, k);
  }

  lemma {:induction false} JoinWellFormed(defs: seq<string>)
    requires forall i :: 0 <= i < |defs| ==> Definition(defs[i])
    ensures WellFormed(Join(defs))
    decreases |defs|
  {
    if |defs| <= 1 {
    } else {
      var d, rest := defs[0], Join(defs[1..]);
      JoinWellFormed(defs[1..]);
      var s := d + "," + rest;
      forall k: nat | k <= |s| ensures After(START, s, k).depth >= 0 {
        if k <= |d| {
          AfterPrefix(START, d, "," + rest, k);
          assert s == d + ("," + rest);
        } else {
          Restarts(d, rest, k - |d| - 1);
        }
      }
      Restarts(d, rest, |rest|);
    }
  }

  /** Wrapped in parentheses, a well-formed text is read back whole, whatever comes before and after. */
  lemma GroupReadsBack(before: string, body: string, tail: string, group: Option<Scan>)
    requires WellFormed(body) && ReadsAs(before + ("(" + body + ")" + tail), |before|, group)
    ensures group == Some(Scan(|before| + |body| + 2, body))
  {
    var s := "(" + body + ")" + tail;
    assert (before + s)[|before|..] == s;
    forall k: nat | k <= |body|
      ensures After(START, s, k + 1) == Lex(After(START, body, k).mode, After(START, body, k).depth + 1)
    {
      InsideGroup(body, tail, k);
    }
    forall k: nat | k <= |body| ensures !Closes(s, k) {
      if 0 < k { assert After(START, body, k).depth >= 0 && s[k] == body[k - 1]; GroupOpen(body, tail, k - 1); }
    }
    assert Closes(s, |body| + 1);
    assert s[1..|body| + 1] == body;
  }

  lemma InsideGroup(body: string, tail: string, k: nat)
    requires k <= |body|
    ensures After(START, "(" + body + ")" + tail, k + 1)
              == Lex(After(START, body, k).mode, After(START, body, k).depth + 1)
  {
    assert "(" + body + ")" + tail == "(" + (body + (")" + tail));
    AfterSuffix(START, "(", body + (")" + tail), k);
    assert After(START, "(", 1) == Lex(InText, 1);
    AfterPrefix(Lex(InText, 1), body, ")" + tail, k);
    AfterDeeper(body, k, 1);
  }

  /** No closing parenthesis of the body closes the group. */
  lemma GroupOpen(body: string, tail: string, k: nat)
    requires k < |body| && After(START, body, k + 1).depth >= 0
    ensures !Closes("(" + body + ")" + tail, k + 1)
  {
    InsideGroup(body, tail, k);
    InsideAQuote(body, k);
    var s := "(" + body + ")" + tail;
    assert s[k + 1] == body[k];
  }

  lemma {:induction false} NoCutsOnePiece(s: string, start: nat, i: nat)
    requires start <= i <= |s| && forall k: nat :: i <= k ==> !Cuts(s, k)
    ensures Pieces(s, start, i) == [s[start..]]
    decreases |s| - i
  {
    if i == |s| {
    } else {
      NoCutsOnePiece(s, start, i + 1);
    }
  }

  /** Past a definition and its comma, the pieces are those of the rest. */
  lemma {:induction false} PiecesOfRest(d: string, rest: string, start: nat, i: nat)
    requires WellFormed(d) && start <= i <= |rest|
    ensures Pieces(d + "," + rest, |d| + 1 + start, |d| + 1 + i) == Pieces(rest, start, i)
    decreases |rest| - i
  {
    var s := d + "," + rest;
    assert s[|d| + 1 + start..] == rest[start..];
    if i == |rest| {
    } else {
      Restarts(d, rest, i);
      assert s[|d| + 1 + i] == rest[i] && s[|d| + 1 + start..|d| + 1 + i] == rest[start..i];
      PiecesOfRest(d, rest, start, i + 1);
      if Cuts(rest, i) { PiecesOfRest(d, rest, i + 1, i + 1); }
    }
  }

  lemma {:induction false} FirstPiece(d: string, rest: string, i: nat)
    requires Definition(d) && i <= |d|
    ensures Pieces(d + "," + rest, 0, i) == [d] + Pieces(rest, 0, 0)
    decreases |d| - i
  {
    var s := d + "," + rest;
    assert s == d + ("," + rest);
    AfterPrefix(START, d, "," + rest, i);
    if i < |d| {
      assert s[i] == d[i] && !Cuts(d, i);
      FirstPiece(d, rest, i + 1);
    } else {
      assert Cuts(s, |d|) && s[0..|d|] == d;
      PiecesOfRest(d, rest, 0, 0);
    }
  }

  lemma {:induction false} ColumnsReadBack(defs: seq<string>)
    requires forall i :: 0 <= i < |defs| ==> Definition(defs[i])
    ensures Cleaned(Pieces(Join(defs), 0, 0)) == defs
    decreases |defs|
  {
    if defs == [] {
      assert Cleaned([""]) == Cleaned([]) by { assert [""][1..] == []; }
    } else if |defs| == 1 {
      NoCutsOnePiece(defs[0], 0, 0);
      assert defs[0][0..] == defs[0] && defs == [defs[0]] && [defs[0]][1..] == [];
    } else {
      FirstPiece(defs[0], Join(defs[1..]), 0);
      ColumnsReadBack(defs[1..]);
      assert ([defs[0]] + Pieces(Join(defs[1..]), 0, 0))[1..] == Pieces(Join(defs[1..]), 0, 0);
    }
  }

  /** A table body written out and read by the two scanners in turn comes back as the same definitions. */
  lemma RoundTrip(before: string, defs: seq<string>, tail: string, group: Option<Scan>)
    requires forall i :: 0 <= i < |defs| ==> Definition(defs[i])
    requires ReadsAs(before + ("(" + Join(defs) + ")" + tail), |before|, group)
    ensures group.Some? && group.value.text == Join(defs) && Cleaned(Pieces(group.value.text, 0, 0)) == defs
  {
    JoinWellFormed(defs);
    GroupReadsBack(before, Join(defs), tail, group);
    ColumnsReadBack(defs);
  }

  // ---- a string is one piece, whatever is in it ----

  /** Characters that leave a string open: any but its quote and a backslash, or a pair of a backslash and a
      character, or of two quotes. */
  predicate Inside(q: char, text: string) {
    if text == "" then true
    else if text[0] == '\\' then |text| >= 2 && Inside(q, text[2..])
    else if text[0] == q then |text| >= 2 && text[1] == q && Inside(q, text[2..])
    else Inside(q, text[1..])
  }

  /** A reader in a string, who may be between the two characters of a pair. */
  predicate StillIn(l: Lex, q: char, text: string, k: nat) {
    l.depth == 0 && (l.mode == Quoted(q) || l.mode == Escaped(q)
                     || (l.mode == Closing(q) && k < |text| && text[k] == q))
  }

  lemma {:induction false} StaysIn(q: char, text: string, k: nat)
    requires Inside(q, text) && k <= |text|
    ensures StillIn(After(Lex(Quoted(q), 0), text, k), q, text, k)
    ensures k == |text| ==> After(Lex(Quoted(q), 0), text, k) == Lex(Quoted(q), 0)
    decreases |text|
  {
    if k == 0 {
    } else {
      var pair := text[0] == '\\' || text[0] == q;
      var n := if pair then 2 else 1;
      var first, rest := text[..n], text[n..];
      assert text == first + rest;
      var start := Lex(Quoted(q), 0);
      assert After(start, text, 0) == start && After(start, text, 1) == Step(start, text[0]);
      if k >= n {
        assert n == 2 ==> After(start, text, 2) == Step(After(start, text, 1), text[1]);
        AfterPrefix(start, first, rest, n);
        AfterSuffix(start, first, rest, k - n);
        StaysIn(q, rest, k - n);
      }
    }
  }

  /** Any of the three quotes makes one definition of what is between it and its end, commas, parentheses, escaped
      and doubled quotes included. */
  lemma {:induction false} StringIsOne(q: char, text: string)
    requires (q == '\'' || q == '"' || q == '`') && Inside(q, text)
    ensures Definition([q] + text + [q])
  {
    var s := [q] + text + [q];
    assert s == [q] + (text + [q]);
    forall k: nat | 1 <= k <= |text| + 1 ensures StillIn(After(START, s, k), q, text, k - 1) {
      InsideFrom(q, text, k - 1);
    }
    InsideFrom(q, text, |text|);
    assert After(START, s, |s|) == Step(After(START, s, |text| + 1), q);
    forall k: nat ensures !Cuts(s, k) {
      if 1 <= k <= |text| { assert s[k] == text[k - 1]; }
    }
  }

  lemma InsideFrom(q: char, text: string, k: nat)
    requires IsQuote(q) && Inside(q, text) && k <= |text|
    ensures var s := [q] + text + [q];
            && StillIn(After(START, s, k + 1), q, text, k)
            && (k == |text| ==> After(START, s, k + 1) == Lex(Quoted(q), 0))
  {
    var s := [q] + text + [q];
    assert s == [q] + (text + [q]);
    assert After(START, [q], 0) == START && After(START, [q], 1) == Lex(Quoted(q), 0);
    AfterSuffix(START, [q], text + [q], k);
    AfterPrefix(Lex(Quoted(q), 0), text, [q], k);
    StaysIn(q, text, k);
  }
}
