/** The tax summary of an invoice (packages/domain/src/invoice-rules.ts). */
module Invoice {
  import opened Text
  import opened Sorting
  import opened TaxSplit
  import opened TaxEngine

  /** Taxes of one name and rate are one row. */
  datatype RowId = RowId(name: string, rate: real)

  datatype Row = Row(key: string, name: string, rate: real, priority: int, cents: int)

  function IdOf(name: string, rate: real): RowId {
    RowId(Lower(Trimmed(name)), rate)
  }

  function Id(r: Row): RowId {
    IdOf(r.name, r.rate)
  }

  predicate RowSooner(a: Row, b: Row) {
    a.priority < b.priority || (a.priority == b.priority && NameBefore(a.name, b.name))
  }

  function RowTotal(rows: seq<Row>): int {
    if rows == [] then 0 else rows[0].cents + RowTotal(rows[1..])
  }

  /** The cents of one tax across lines. */
  function CentsOf(lines: seq<TaxLine>, id: RowId): int {
    if lines == [] then 0
    else (if IdOf(lines[0].name, lines[0].rate) == id then lines[0].amount else 0) + CentsOf(lines[1..], id)
  }

  /** The first line of a tax, whose key, name and priority its row takes. */
  function FirstOf(lines: seq<TaxLine>, id: RowId): (l: TaxLine)
    requires exists i :: 0 <= i < |lines| && IdOf(lines[i].name, lines[i].rate) == id
    ensures l in lines && IdOf(l.name, l.rate) == id
  {
    if IdOf(lines[0].name, lines[0].rate) == id then lines[0] else FirstOf(lines[1..], id)
  }

  predicate Names(lines: seq<TaxLine>, id: RowId) {
    exists i :: 0 <= i < |lines| && IdOf(lines[i].name, lines[i].rate) == id
  }

  /** A row is all the lines of its tax, headed as the first of them. */
  predicate RowOf(lines: seq<TaxLine>, r: Row) {
    && Names(lines, Id(r)) && r.cents == CentsOf(lines, Id(r))
    && var l := FirstOf(lines, Id(r));
       r.key == l.key && r.name == l.name && r.rate == l.rate && r.priority == l.priority
  }

  predicate HasRow(rows: seq<Row>, id: RowId) {
    exists i :: 0 <= i < |rows| && Id(rows[i]) == id
  }

  /** One row for each tax on the lines, and no other. */
  ghost predicate Summarises(lines: seq<TaxLine>, rows: seq<Row>) {
    && (forall i :: 0 <= i < |rows| ==> RowOf(lines, rows[i]))
    && (forall i, j :: 0 <= i < j < |rows| ==> Id(rows[i]) != Id(rows[j]))
    && forall id :: Names(lines, id) ==> HasRow(rows, id)
  }

  function Joined(documents: seq<seq<TaxLine>>): seq<TaxLine> {
    if documents == [] then [] else Joined(documents[..|documents| - 1]) + documents[|documents| - 1]
  }

  lemma {:induction false} CentsJoin(lines: seq<TaxLine>, t: TaxLine, id: RowId)
    ensures CentsOf(lines + [t], id) == CentsOf(lines, id) + if IdOf(t.name, t.rate) == id then t.amount else 0
  {
    if lines == [] {
      assert [t][1..] == [];
    } else {
      assert (lines + [t])[1..] == lines[1..] + [t];
      CentsJoin(lines[1..], t, id);
    }
  }

  lemma {:induction false} FirstJoins(lines: seq<TaxLine>, t: TaxLine, id: RowId)
    ensures Names(lines + [t], id) <==> Names(lines, id) || IdOf(t.name, t.rate) == id
    ensures Names(lines + [t], id) ==> FirstOf(lines + [t], id) == if Names(lines, id) then FirstOf(lines, id) else t
  {
    var more := lines + [t];
    assert more[|lines|] == t && forall i :: 0 <= i < |lines| ==> more[i] == lines[i];
    if lines == [] {
    } else {
      assert more[1..] == lines[1..] + [t];
      FirstJoins(lines[1..], t, id);
      NamesTail(lines, id);
      NamesTail(more, id);
    }
  }

  lemma NamesTail(lines: seq<TaxLine>, id: RowId)
    requires lines != []
    ensures Names(lines, id) <==> IdOf(lines[0].name, lines[0].rate) == id || Names(lines[1..], id)
  {
    if i :| 0 <= i < |lines| && IdOf(lines[i].name, lines[i].rate) == id {
      assert i > 0 ==> lines[1..][i - 1] == lines[i];
    }
    if i :| 0 <= i < |lines| - 1 && IdOf(lines[1..][i].name, lines[1..][i].rate) == id {
      assert lines[i + 1] == lines[1..][i];
    }
  }

  lemma {:induction false} NoCents(lines: seq<TaxLine>, id: RowId)
    requires !Names(lines, id)
    ensures CentsOf(lines, id) == 0
  {
    if lines == [] {
    } else {
      NamesTail(lines, id);
      NoCents(lines[1..], id);
    }
  }

  /** The row of a tax already met takes the line's cents. */
  lemma RowGrows(lines: seq<TaxLine>, rows: seq<Row>, t: TaxLine, k: nat)
    requires Summarises(lines, rows) && k < |rows| && Id(rows[k]) == IdOf(t.name, t.rate)
    ensures Summarises(lines + [t], rows[k := rows[k].(cents := rows[k].cents + t.amount)])
  {
    var more := rows[k := rows[k].(cents := rows[k].cents + t.amount)];
    forall i | 0 <= i < |more| ensures RowOf(lines + [t], more[i]) {
      assert RowOf(lines, rows[i]);
      CentsJoin(lines, t, Id(rows[i]));
      FirstJoins(lines, t, Id(rows[i]));
    }
    forall id | Names(lines + [t], id) ensures HasRow(more, id) {
      FirstJoins(lines, t, id);
      var i := if Id(rows[k]) == id then k else RowWith(rows, id);
      assert Id(more[i]) == id;
    }
  }

  function RowWith(rows: seq<Row>, id: RowId): (i: nat)
    requires HasRow(rows, id)
    ensures i < |rows| && Id(rows[i]) == id
  {
    HasRowTail(rows, id);
    if Id(rows[0]) == id then 0 else 1 + RowWith(rows[1..], id)
  }

  /** A tax not met before starts a row. */
  lemma RowStarts(lines: seq<TaxLine>, rows: seq<Row>, t: TaxLine, row: Row)
    requires Summarises(lines, rows) && !HasRow(rows, IdOf(t.name, t.rate))
    requires row == Row(t.key, t.name, t.rate, t.priority, t.amount)
    ensures Summarises(lines + [t], rows + [row])
  {
    var more := rows + [row];
    forall i | 0 <= i < |more| ensures RowOf(lines + [t], more[i]) {
      CentsJoin(lines, t, Id(more[i]));
      FirstJoins(lines, t, Id(more[i]));
      if i < |rows| {
        assert RowOf(lines, rows[i]) && Id(rows[i]) != Id(row);
      } else {
        NoCents(lines, Id(row));
      }
    }
    forall id | Names(lines + [t], id) ensures HasRow(more, id) {
      FirstJoins(lines, t, id);
      var i := if Id(row) == id then |rows| else RowWith(rows, id);
      assert Id(more[i]) == id;
    }
  }

  /** One line, onto the row of its tax. */
  method AddLine(ghost before: seq<TaxLine>, rows: seq<Row>, t: TaxLine) returns (tally: seq<Row>)
    requires Summarises(before, rows)
    ensures Summarises(before + [t], tally)
  {
    var id := IdOf(t.name, t.rate);
    if HasRow(rows, id) {
      var k := RowWith(rows, id);
      RowGrows(before, rows, t, k);
      return rows[k := rows[k].(cents := rows[k].cents + t.amount)];
    }
    RowStarts(before, rows, t, Row(t.key, t.name, t.rate, t.priority, t.amount));
    return rows + [Row(t.key, t.name, t.rate, t.priority, t.amount)];
  }

  /** One document's lines, onto the rows so far. */
  method AddLines(ghost before: seq<TaxLine>, rows: seq<Row>, lines: seq<TaxLine>) returns (tally: seq<Row>)
    requires Summarises(before, rows)
    ensures Summarises(before + lines, tally)
  {
    tally := rows;
    var i := 0;
    assert before + lines[..0] == before;
    while i < |lines|
      invariant 0 <= i <= |lines| && Summarises(before + lines[..i], tally)
    {
      assert before + lines[..i + 1] == before + lines[..i] + [lines[i]];
      tally := AddLine(before + lines[..i], tally, lines[i]);
      i := i + 1;
    }
    assert lines[..|lines|] == lines;
  }

  method SummariseTaxes(documents: seq<seq<TaxLine>>) returns (summary: seq<Row>)
    ensures Summarises(Joined(documents), summary) && Sorted(summary, RowSooner)
  {
    var tally: seq<Row> := [];
    var d := 0;
    while d < |documents|
      invariant 0 <= d <= |documents| && Summarises(Joined(documents[..d]), tally)
    {
      assert documents[..d + 1][..d] == documents[..d];
      tally := AddLines(Joined(documents[..d]), tally, documents[d]);
      d := d + 1;
    }
    assert documents[..|documents|] == documents;
    summary := Sort(tally, RowSooner);
    RowSoonerIsOrder();
    SortSorted(tally, RowSooner);
    StillSummarises(Joined(documents), tally);
  }

  lemma RowSoonerIsOrder()
    ensures TotalOrder(RowSooner)
  {
    forall x, y ensures RowSooner(x, y) || RowSooner(y, x) { NamesTotal(x.name, y.name); }
    forall x, y, z | RowSooner(x, y) && RowSooner(y, z) ensures RowSooner(x, z) {
      if x.priority == y.priority == z.priority { NamesTransitive(x.name, y.name, z.name); }
    }
  }

  /** The rows stand by priority, and by name where it is the same. */
  lemma RowsInOrder(rows: seq<Row>, i: nat, j: nat)
    requires Sorted(rows, RowSooner) && i < j < |rows|
    ensures rows[i].priority < rows[j].priority
            || (rows[i].priority == rows[j].priority && Precedes(rows[i].name, rows[j].name))
  {
    NamesByCharacter(rows[i].name, rows[j].name);
  }

  /** A tax's row takes the key, the name and the priority of its first line, and the cents of all of them. */
  lemma {:induction false} RowHead(lines: seq<TaxLine>, r: Row, i: nat)
    requires RowOf(lines, r) && i < |lines| && IdOf(lines[i].name, lines[i].rate) == Id(r)
    requires forall k :: 0 <= k < i ==> IdOf(lines[k].name, lines[k].rate) != Id(r)
    ensures r == Row(lines[i].key, lines[i].name, lines[i].rate, lines[i].priority, CentsOf(lines, Id(r)))
  {
    FirstIs(lines, Id(r), i);
  }

  lemma {:induction false} FirstIs(lines: seq<TaxLine>, id: RowId, i: nat)
    requires i < |lines| && IdOf(lines[i].name, lines[i].rate) == id
    requires forall k :: 0 <= k < i ==> IdOf(lines[k].name, lines[k].rate) != id
    ensures Names(lines, id) && FirstOf(lines, id) == lines[i]
  {
    if i == 0 {
    } else {
      assert lines[1..][i - 1] == lines[i] && forall k :: 0 <= k < i - 1 ==> lines[1..][k] == lines[k + 1];
      FirstIs(lines[1..], id, i - 1);
    }
  }

  lemma {:induction false} BlanksIgnored(s: string)
    ensures Trimmed(s + " ") == Trimmed(s) && Trimmed(" " + s) == Trimmed(s)
  {
    assert (" " + s)[1..] == s;
    if s == "" {
    } else if IsSpace(s[0]) {
      BlanksIgnored(s[1..]);
      assert (s + " ")[1..] == s[1..] + " ";
    } else {
      assert (s + " ")[..|s|] == s;
    }
  }

  /** Two lines share a row exactly when their rates are one and their names differ at most in case, and in blanks at
      either end. */
  lemma SharesRow(name: string, other: string, rate: real, another: real)
    ensures IdOf(" " + name + " ", rate) == IdOf(name, rate)
    ensures IdOf(name, rate) == IdOf(other, another) <==>
              rate == another && Lower(Trimmed(name)) == Lower(Trimmed(other))
  {
    BlanksIgnored(name);
    BlanksIgnored(" " + name);
  }

  lemma DifferentRows(rows: seq<Row>, a: Row, b: Row)
    requires forall i, j :: 0 <= i < j < |rows| ==> Id(rows[i]) != Id(rows[j])
    requires a in rows && b in rows && a != b
    ensures Id(a) != Id(b)
  {
    var k :| 0 <= k < |rows| && rows[k] == a;
    var l :| 0 <= l < |rows| && rows[l] == b;
    assert k < l || l < k;
  }

  lemma SortedMember(rows: seq<Row>, i: nat)
    requires i < |Sort(rows, RowSooner)|
    ensures Sort(rows, RowSooner)[i] in rows
  {
    SortKeepsElements(rows, RowSooner);
    assert Sort(rows, RowSooner)[i] in multiset(rows);
  }

  lemma StillHasRow(rows: seq<Row>, id: RowId)
    requires HasRow(rows, id)
    ensures HasRow(Sort(rows, RowSooner), id)
  {
    SortKeepsElements(rows, RowSooner);
    var r := rows[RowWith(rows, id)];
    var sorted := Sort(rows, RowSooner);
    assert r in multiset(sorted);
    var i :| 0 <= i < |sorted| && sorted[i] == r;
  }

  lemma StillSummarises(lines: seq<TaxLine>, rows: seq<Row>)
    requires Summarises(lines, rows)
    ensures Summarises(lines, Sort(rows, RowSooner))
  {
    var sorted := Sort(rows, RowSooner);
    SortNoRepeats(rows, RowSooner);
    forall i: nat | i < |sorted| ensures sorted[i] in rows { SortedMember(rows, i); }
    forall i, j | 0 <= i < j < |sorted| ensures Id(sorted[i]) != Id(sorted[j]) {
      DifferentRows(rows, sorted[i], sorted[j]);
    }
    forall id | Names(lines, id) ensures HasRow(sorted, id) { StillHasRow(rows, id); }
  }

  // ---- every cent is on one row ----

  function SpreadOver(lines: seq<TaxLine>, rows: seq<Row>): int {
    if rows == [] then 0 else CentsOf(lines, Id(rows[0])) + SpreadOver(lines, rows[1..])
  }

  lemma {:induction false} SpreadTail(lines: seq<TaxLine>, rows: seq<Row>)
    requires lines != []
    requires forall i, j :: 0 <= i < j < |rows| ==> Id(rows[i]) != Id(rows[j])
    ensures SpreadOver(lines, rows) == SpreadOver(lines[1..], rows)
      + if HasRow(rows, IdOf(lines[0].name, lines[0].rate)) then lines[0].amount else 0
  {
    if rows == [] {
    } else {
      SpreadTail(lines, rows[1..]);
      HasRowTail(rows, IdOf(lines[0].name, lines[0].rate));
    }
  }

  lemma HasRowTail(rows: seq<Row>, id: RowId)
    requires rows != []
    ensures HasRow(rows, id) <==> Id(rows[0]) == id || HasRow(rows[1..], id)
  {
    if i :| 0 <= i < |rows| && Id(rows[i]) == id {
      assert i > 0 ==> rows[1..][i - 1] == rows[i];
    }
    if i :| 0 <= i < |rows| - 1 && Id(rows[1..][i]) == id {
      assert rows[i + 1] == rows[1..][i];
    }
  }

  lemma {:induction false} SpreadIsTotal(lines: seq<TaxLine>, rows: seq<Row>)
    requires forall i, j :: 0 <= i < j < |rows| ==> Id(rows[i]) != Id(rows[j])
    requires forall k :: 0 <= k < |lines| ==> HasRow(rows, IdOf(lines[k].name, lines[k].rate))
    ensures SpreadOver(lines, rows) == LineTotal(lines)
    decreases |lines|
  {
    if lines == [] {
      NothingSpread(rows);
    } else {
      forall k | 0 <= k < |lines| - 1 ensures HasRow(rows, IdOf(lines[1..][k].name, lines[1..][k].rate)) {
        assert lines[1..][k] == lines[k + 1];
      }
      SpreadIsTotal(lines[1..], rows);
      SpreadTail(lines, rows);
    }
  }

  lemma {:induction false} NothingSpread(rows: seq<Row>)
    ensures SpreadOver([], rows) == 0
  {
    if rows == [] {
    } else {
      NothingSpread(rows[1..]);
    }
  }

  lemma {:induction false} RowsAreSpread(lines: seq<TaxLine>, rows: seq<Row>)
    requires forall i :: 0 <= i < |rows| ==> RowOf(lines, rows[i])
    ensures RowTotal(rows) == SpreadOver(lines, rows)
  {
    if rows == [] {
    } else {
      assert RowOf(lines, rows[0]);
      forall i | 0 <= i < |rows| - 1 ensures RowOf(lines, rows[1..][i]) { assert rows[1..][i] == rows[i + 1]; }
      RowsAreSpread(lines, rows[1..]);
    }
  }

  /** A summary's rows add up to the lines' cents, no more and no less. */
  lemma SummaryConserves(lines: seq<TaxLine>, rows: seq<Row>)
    requires Summarises(lines, rows)
    ensures RowTotal(rows) == LineTotal(lines)
  {
    forall k | 0 <= k < |lines| ensures HasRow(rows, IdOf(lines[k].name, lines[k].rate)) {
      assert Names(lines, IdOf(lines[k].name, lines[k].rate));
    }
    SpreadIsTotal(lines, rows);
    RowsAreSpread(lines, rows);
  }
}
