/** Which of the ranked rows of a search are returned: the best of each document first, if asked. */
module SearchSelection {
  import opened Wrappers

  datatype Row = Row(passage: nat, document: nat)

  predicate HasDocument(rows: seq<Row>, document: nat) {
    exists k :: 0 <= k < |rows| && rows[k].document == document
  }

  predicate HasPassage(rows: seq<Row>, passage: nat) {
    exists k :: 0 <= k < |rows| && rows[k].passage == passage
  }

  /** The best row of each document, in order of rank. */
  function Firsts(rows: seq<Row>): seq<Row> {
    if rows == [] then [] else
    var init, row := rows[..|rows| - 1], rows[|rows| - 1];
    if HasDocument(init, row.document) then Firsts(init) else Firsts(init) + [row]
  }

  /** The selection filled up to `limit` with the passages it does not have yet, in order of rank. */
  function Filled(selected: seq<Row>, rows: seq<Row>, limit: nat): seq<Row> {
    if rows == [] then selected else
    var before, row := Filled(selected, rows[..|rows| - 1], limit), rows[|rows| - 1];
    if |before| < limit && !HasPassage(before, row.passage) then before + [row] else before
  }

  function Selection(rows: seq<Row>, limit: nat, diversify: bool): seq<Row> {
    Filled(if diversify then Firsts(rows)[..Min(limit, |Firsts(rows)|)] else [], rows, limit)
  }

  lemma {:induction false} FirstsShape(rows: seq<Row>)
    ensures forall row :: row in Firsts(rows) ==> row in rows
    ensures forall document :: HasDocument(Firsts(rows), document) <==> HasDocument(rows, document)
    ensures DistinctDocuments(Firsts(rows))
  {
    if rows != [] {
      var init, row := rows[..|rows| - 1], rows[|rows| - 1];
      FirstsShape(init);
      forall document ensures HasDocument(rows, document) <==> HasDocument(init, document) || document == row.document {
        HasOneMore(init, row);
        assert rows == init + [row];
      }
      HasOneMore(Firsts(init), row);
    }
  }

  ghost predicate DistinctDocuments(rows: seq<Row>) {
    forall i, j :: 0 <= i < j < |rows| ==> rows[i].document != rows[j].document
  }

  ghost predicate DistinctPassages(rows: seq<Row>) {
    forall i, j :: 0 <= i < j < |rows| ==> rows[i].passage != rows[j].passage
  }

  lemma HasOneMore(rows: seq<Row>, row: Row)
    ensures forall d :: HasDocument(rows + [row], d) <==> HasDocument(rows, d) || d == row.document
    ensures forall p :: HasPassage(rows + [row], p) <==> HasPassage(rows, p) || p == row.passage
  {
    var more := rows + [row];
    assert more[|rows|] == row && forall k :: 0 <= k < |rows| ==> more[k] == rows[k];
    forall d | HasDocument(rows, d) ensures HasDocument(more, d) {
      var k :| 0 <= k < |rows| && rows[k].document == d;
      assert more[k].document == d;
    }
    forall p | HasPassage(rows, p) ensures HasPassage(more, p) {
      var k :| 0 <= k < |rows| && rows[k].passage == p;
      assert more[k].passage == p;
    }
  }

  lemma {:induction false} FirstsPrefix(rows: seq<Row>, i: nat)
    requires i <= |rows|
    ensures Firsts(rows[..i]) <= Firsts(rows)
  {
    if i == |rows| {
      assert rows[..i] == rows;
    } else {
      var init := rows[..|rows| - 1];
      FirstsPrefix(init, i);
      assert init[..i] == rows[..i];
    }
  }

  lemma {:induction false} FilledStops(selected: seq<Row>, rows: seq<Row>, i: nat, limit: nat)
    requires i <= |rows| && |Filled(selected, rows[..i], limit)| == limit
    ensures Filled(selected, rows, limit) == Filled(selected, rows[..i], limit)
  {
    if i == |rows| {
      assert rows[..i] == rows;
    } else {
      var init := rows[..|rows| - 1];
      assert init[..i] == rows[..i];
      FilledStops(selected, init, i, limit);
    }
  }

  ghost predicate Documents(rows: seq<Row>, documents: set<nat>) {
    forall d :: d in documents <==> HasDocument(rows, d)
  }

  ghost predicate Passages(rows: seq<Row>, passages: set<nat>) {
    forall p :: p in passages <==> HasPassage(rows, p)
  }

  /** The first loop: one row a document, until the limit. */
  method BestOfDocuments(rows: seq<Row>, limit: nat) returns (selected: seq<Row>, selectedIds: set<nat>)
    requires limit >= 1
    ensures selected == Firsts(rows)[..Min(limit, |Firsts(rows)|)] && Passages(selected, selectedIds)
  {
    selected, selectedIds := [], {};
    var seenDocuments: set<nat> := {};
    for i := 0 to |rows|
      invariant |selected| < limit && selected == Firsts(rows[..i])
      invariant Documents(rows[..i], seenDocuments) && Passages(selected, selectedIds)
    {
      var row := rows[i];
      assert rows[..i + 1] == rows[..i] + [row] && rows[..i + 1][..i] == rows[..i];
      HasOneMore(rows[..i], row);
      HasOneMore(selected, row);
      FirstsPrefix(rows, i + 1);
      if row.document !in seenDocuments {
        selected, selectedIds := selected + [row], selectedIds + {row.passage};
        seenDocuments := seenDocuments + {row.document};
      }
      if |selected| == limit {
        return;
      }
    }
    assert rows[..|rows|] == rows;
  }

  /** Both loops of search_corpus over the ranked rows. */
  method SelectRows(rows: seq<Row>, limit: nat, diversify: bool) returns (selected: seq<Row>)
    requires limit >= 1
    ensures selected == Selection(rows, limit, diversify)
  {
    selected := [];
    var selectedIds: set<nat> := {};
    if diversify {
      selected, selectedIds := BestOfDocuments(rows, limit);
    }
    ghost var best := selected;
    for i := 0 to |rows|
      invariant selected == Filled(best, rows[..i], limit) && |selected| <= limit
      invariant Passages(selected, selectedIds)
    {
      var row := rows[i];
      assert rows[..i + 1][..i] == rows[..i];
      if |selected| == limit {
        FilledStops(best, rows, i, limit);
        return;
      }
      HasOneMore(selected, row);
      if row.passage !in selectedIds {
        selected, selectedIds := selected + [row], selectedIds + {row.passage};
      }
    }
    assert rows[..|rows|] == rows;
  }

  // ----- what a selection is -----

  /** Every passage that was found is returned, unless the limit is reached. */
  lemma {:induction false} FilledComplete(selected: seq<Row>, rows: seq<Row>, limit: nat)
    requires |selected| <= limit && DistinctPassages(selected)
    ensures selected <= Filled(selected, rows, limit) && |Filled(selected, rows, limit)| <= limit
    ensures DistinctPassages(Filled(selected, rows, limit))
    ensures forall row :: row in Filled(selected, rows, limit) ==> row in selected || row in rows
    ensures |Filled(selected, rows, limit)| < limit
            ==> forall row :: row in rows ==> HasPassage(Filled(selected, rows, limit), row.passage)
  {
    if rows != [] {
      var init, row := rows[..|rows| - 1], rows[|rows| - 1];
      FilledComplete(selected, init, limit);
      HasOneMore(Filled(selected, init, limit), row);
      assert rows == init + [row];
    }
  }

  ghost function PassagesOf(rows: seq<Row>): set<nat> {
    set k | 0 <= k < |rows| :: rows[k].passage
  }

  lemma {:induction false} PassagesCounted(rows: seq<Row>)
    requires DistinctPassages(rows)
    ensures |PassagesOf(rows)| == |rows|
  {
    if rows != [] {
      var init, row := rows[..|rows| - 1], rows[|rows| - 1];
      PassagesCounted(init);
      assert PassagesOf(rows) == PassagesOf(init) + {row.passage} by {
        assert rows == init + [row];
      }
      assert row.passage !in PassagesOf(init);
    }
  }

  /** The rows of a full selection are as many as the limit and the rows allow. */
  lemma FilledSize(selected: seq<Row>, rows: seq<Row>, limit: nat)
    requires |selected| <= limit && DistinctPassages(selected) && DistinctPassages(rows)
    requires forall row :: row in selected ==> row in rows
    ensures |Filled(selected, rows, limit)| == Min(limit, |rows|)
  {
    var filled := Filled(selected, rows, limit);
    FilledComplete(selected, rows, limit);
    PassagesCounted(filled);
    PassagesCounted(rows);
    forall p | p in PassagesOf(filled) ensures p in PassagesOf(rows) {
      var k :| 0 <= k < |filled| && filled[k].passage == p;
      assert filled[k] in rows;
    }
    Contained(PassagesOf(filled), PassagesOf(rows));
    if |filled| < limit {
      forall p | p in PassagesOf(rows) ensures p in PassagesOf(filled) {
        var k :| 0 <= k < |rows| && rows[k].passage == p;
        assert HasPassage(filled, rows[k].passage);
      }
      Contained(PassagesOf(rows), PassagesOf(filled));
    }
  }

  lemma {:induction false} Contained(a: set<nat>, b: set<nat>)
    requires a <= b
    ensures |a| <= |b|
  {
    assert b == a + (b - a);
  }

  /**
   A diversified selection repeats no passage and is as long as the limit and the
   rows allow; it shows every document that was found, or no document twice.
   */
  lemma SelectionIsDiverse(rows: seq<Row>, limit: nat)
    requires DistinctPassages(rows)
    ensures var selected := Selection(rows, limit, true);
      && DistinctPassages(selected) && (forall row :: row in selected ==> row in rows)
      && |selected| == Min(limit, |rows|)
      && ((forall row :: row in rows ==> HasDocument(selected, row.document)) || DistinctDocuments(selected))
  {
    var firsts := Firsts(rows);
    var best := firsts[..Min(limit, |firsts|)];
    var selected := Filled(best, rows, limit);
    FirstsShape(rows);
    forall i, j | 0 <= i < j < |best| ensures best[i].passage != best[j].passage {
      assert firsts[i] in rows && firsts[j] in rows && firsts[i].document != firsts[j].document;
    }
    forall row | row in best ensures row in rows {
      assert row in firsts;
    }
    FilledComplete(best, rows, limit);
    FilledSize(best, rows, limit);
    if |firsts| <= limit {
      forall row | row in rows ensures HasDocument(selected, row.document) {
        var at :| 0 <= at < |rows| && rows[at] == row;
        assert HasDocument(rows, row.document) by { assert rows[at].document == row.document; }
        var k :| 0 <= k < |firsts| && firsts[k].document == row.document;
        assert selected[k] == best[k] == firsts[k];
      }
    } else {
      assert selected[..|best|] == best;
      assert selected == best;
    }
  }

  /** Without diversification the selection is the best rows. */
  lemma {:induction false} PlainSelection(rows: seq<Row>, limit: nat)
    requires DistinctPassages(rows)
    ensures Selection(rows, limit, false) == rows[..Min(limit, |rows|)]
  {
    if rows != [] {
      var init, row := rows[..|rows| - 1], rows[|rows| - 1];
      PlainSelection(init, limit);
      var before := init[..Min(limit, |init|)];
      assert before == Filled([], init, limit);
      if |init| < limit {
        assert before == init && rows == init + [row];
        forall k | 0 <= k < |init| ensures init[k].passage != row.passage {
          assert rows[k] == init[k] && rows[|init|] == row;
        }
      } else {
        assert rows[..limit] == init[..limit];
      }
    }
  }

  // ----- which rows are selected -----

  /** The row is the best ranked of its document. */
  ghost predicate IsBest(rows: seq<Row>, row: Row) {
    exists k: nat :: BestAt(rows, k, row)
  }

  ghost predicate BestAt(rows: seq<Row>, k: nat, row: Row) {
    k < |rows| && rows[k] == row && forall j :: 0 <= j < k ==> rows[j].document != row.document
  }

  lemma BestOrNot(rows: seq<Row>, i: nat)
    requires DistinctPassages(rows) && i < |rows|
    ensures HasDocument(rows[..i], rows[i].document) <==> !IsBest(rows, rows[i])
  {
    if HasDocument(rows[..i], rows[i].document) {
      var j :| 0 <= j < i && rows[..i][j].document == rows[i].document;
      assert rows[j].document == rows[i].document;
    } else {
      forall j | 0 <= j < i ensures rows[j].document != rows[i].document {
        assert rows[..i][j] == rows[j];
      }
      assert BestAt(rows, i, rows[i]);
    }
  }

  lemma {:induction false} FirstsAre(rows: seq<Row>, best: Row -> bool, i: nat)
    requires DistinctPassages(rows) && i <= |rows| && forall row :: best(row) <==> IsBest(rows, row)
    ensures Firsts(rows[..i]) == Filter(best, rows[..i])
  {
    if i > 0 {
      FirstsAre(rows, best, i - 1);
      BestOrNot(rows, i - 1);
      assert rows[..i] == rows[..i - 1] + [rows[i - 1]] && rows[..i][..i - 1] == rows[..i - 1];
      FilterAppend(best, rows[..i - 1], rows[i - 1]);
    }
  }

  function Take<T>(n: nat, xs: seq<T>): seq<T> {
    xs[..Min(n, |xs|)]
  }

  lemma PassageInSum(a: seq<Row>, b: seq<Row>, passage: nat)
    ensures HasPassage(a + b, passage) <==> HasPassage(a, passage) || HasPassage(b, passage)
  {
    if k :| 0 <= k < |a| && a[k].passage == passage {
      assert (a + b)[k].passage == passage;
    }
    if k :| 0 <= k < |b| && b[k].passage == passage {
      assert (a + b)[|a| + k].passage == passage;
    }
  }

  lemma {:induction false} FilteredRows(keep: Row -> bool, rows: seq<Row>, row: Row)
    ensures row in Filter(keep, rows) ==> row in rows
  {
    if rows != [] {
      FilteredRows(keep, rows[..|rows| - 1], row);
      assert rows == rows[..|rows| - 1] + [rows[|rows| - 1]];
    }
  }

  lemma NotAmong(rows: seq<Row>, i: nat, n: nat, keep: Row -> bool)
    requires DistinctPassages(rows) && i < |rows|
    ensures !HasPassage(Take(n, Filter(keep, rows[..i])), rows[i].passage)
  {
    var taken := Take(n, Filter(keep, rows[..i]));
    forall k | 0 <= k < |taken| ensures taken[k].passage != rows[i].passage {
      FilteredRows(keep, rows[..i], taken[k]);
      var j :| 0 <= j < i && rows[..i][j] == taken[k];
      assert rows[j] == taken[k];
    }
  }

  lemma TakeMore<T>(n: nat, xs: seq<T>, x: T)
    ensures Take(n, xs + [x]) == if |Take(n, xs)| < n then Take(n, xs) + [x] else Take(n, xs)
  {
  }

  lemma {:induction false} FilledIs(selected: seq<Row>, others: Row -> bool, rows: seq<Row>, limit: nat, i: nat)
    requires DistinctPassages(rows) && |selected| <= limit && i <= |rows|
    requires forall row :: others(row) <==> !HasPassage(selected, row.passage)
    ensures Filled(selected, rows[..i], limit) == selected + Take(limit - |selected|, Filter(others, rows[..i]))
  {
    if i > 0 {
      var init, row := rows[..i - 1], rows[i - 1];
      FilledIs(selected, others, rows, limit, i - 1);
      assert rows[..i] == init + [row] && rows[..i][..i - 1] == init;
      NotAmong(rows, i - 1, limit - |selected|, others);
      PassageInSum(selected, Take(limit - |selected|, Filter(others, init)), row.passage);
      FilterAppend(others, init, row);
      TakeMore(limit - |selected|, Filter(others, init), row);
    }
  }

  /**
   A diversified selection is the best row of each document, and then the other
   rows, both in order of rank and up to the limit.
   */
  lemma SelectionIs(rows: seq<Row>, limit: nat, best: Row -> bool, others: Row -> bool)
    requires DistinctPassages(rows) && forall row :: best(row) <==> IsBest(rows, row)
    requires forall row :: others(row) <==> !HasPassage(Take(limit, Filter(best, rows)), row.passage)
    ensures var chosen := Take(limit, Filter(best, rows));
            Selection(rows, limit, true) == chosen + Take(limit - |chosen|, Filter(others, rows))
  {
    assert rows[..|rows|] == rows;
    FirstsAre(rows, best, |rows|);
    FilledIs(Take(limit, Filter(best, rows)), others, rows, limit, |rows|);
  }
}
