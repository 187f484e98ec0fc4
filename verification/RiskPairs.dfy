/** Which pairs of hypotheses no evidence tells apart. */
module RiskPairs {
  import opened Text
  import opened RiskFindings

  /** A prediction that names an evidence class. */
  predicate Usable(p: Prediction) {
    !Blank(p.evidenceClass)
  }

  /** The prediction expects this observation of this class of evidence. */
  predicate Expects(lower: string -> string, p: Prediction, evidence: string, observation: string) {
    Usable(p) && Strip(p.evidenceClass) == evidence && lower(Strip(p.observation)) == observation
  }

  ghost predicate Predicts(lower: string -> string, ps: seq<Prediction>, evidence: string, observation: string) {
    exists k :: 0 <= k < |ps| && Expects(lower, ps[k], evidence, observation)
  }

  /** Both lists speak about this class of evidence, and one expects of it what the other does not. */
  ghost predicate DisagreeOn(lower: string -> string, ps: seq<Prediction>, qs: seq<Prediction>, evidence: string) {
    && (exists x :: Predicts(lower, ps, evidence, x))
    && (exists x :: Predicts(lower, qs, evidence, x))
    && (exists x :: Predicts(lower, ps, evidence, x) != Predicts(lower, qs, evidence, x))
  }

  ghost predicate Discriminates(lower: string -> string, first: Hypothesis, second: Hypothesis) {
    exists evidence :: DisagreeOn(lower, first.predictions, second.predictions, evidence)
  }

  lemma PredictsOneMore(lower: string -> string, ps: seq<Prediction>, k: nat, evidence: string, observation: string)
    requires k < |ps|
    ensures Predicts(lower, ps[..k + 1], evidence, observation)
            <==> Predicts(lower, ps[..k], evidence, observation) || Expects(lower, ps[k], evidence, observation)
  {
    assert ps[..k + 1] == ps[..k] + [ps[k]];
    if Predicts(lower, ps[..k], evidence, observation) {
      var j :| 0 <= j < k && Expects(lower, ps[..k][j], evidence, observation);
      assert ps[..k + 1][j] == ps[..k][j];
    }
    if Expects(lower, ps[k], evidence, observation) {
      assert ps[..k + 1][k] == ps[k];
    }
  }

  predicate Lists(table: map<string, set<string>>, evidence: string, observation: string) {
    evidence in table && observation in table[evidence]
  }

  ghost predicate Tabulates(lower: string -> string, ps: seq<Prediction>, table: map<string, set<string>>) {
    && (forall e, x :: Lists(table, e, x) <==> Predicts(lower, ps, e, x))
    && forall e :: e in table ==> table[e] != {}
  }

  /** setdefault(evidence, set()).add(observation) */
  function Added(table: map<string, set<string>>, evidence: string, observation: string): map<string, set<string>> {
    table[evidence := (if evidence in table then table[evidence] else {}) + {observation}]
  }

  lemma AddedTabulates(lower: string -> string, ps: seq<Prediction>, k: nat, table: map<string, set<string>>)
    requires k < |ps| && Tabulates(lower, ps[..k], table)
    ensures !Usable(ps[k]) ==> Tabulates(lower, ps[..k + 1], table)
    ensures Usable(ps[k]) ==>
      Tabulates(lower, ps[..k + 1], Added(table, Strip(ps[k].evidenceClass), lower(Strip(ps[k].observation))))
  {
    var evidence, observation := Strip(ps[k].evidenceClass), lower(Strip(ps[k].observation));
    var after := if Usable(ps[k]) then Added(table, evidence, observation) else table;
    forall e, x ensures Lists(after, e, x) <==> Predicts(lower, ps[..k + 1], e, x) {
      PredictsOneMore(lower, ps, k, e, x);
      assert Lists(table, e, x) <==> Predicts(lower, ps[..k], e, x);
      assert Expects(lower, ps[k], e, x) <==> Usable(ps[k]) && e == evidence && x == observation;
    }
    forall e | e in after ensures after[e] != {} {
      assert e == evidence && Usable(ps[k]) ==> Lists(after, e, observation);
    }
    assert Tabulates(lower, ps[..k + 1], after);
  }

  /** The table of expected observations that each comparison builds for a hypothesis. */
  method Observations(lower: string -> string, h: Hypothesis) returns (table: map<string, set<string>>)
    ensures Tabulates(lower, h.predictions, table)
  {
    var ps := h.predictions;
    table := map[];
    for k := 0 to |ps|
      invariant Tabulates(lower, ps[..k], table)
    {
      AddedTabulates(lower, ps, k, table);
      if Usable(ps[k]) {
        table := Added(table, Strip(ps[k].evidenceClass), lower(Strip(ps[k].observation)));
      }
    }
    assert ps[..|ps|] == ps;
  }

  lemma DisagreeIff(lower: string -> string, ps: seq<Prediction>, qs: seq<Prediction>,
                    one: map<string, set<string>>, other: map<string, set<string>>, evidence: string)
    requires Tabulates(lower, ps, one) && Tabulates(lower, qs, other)
    ensures DisagreeOn(lower, ps, qs, evidence) <==> evidence in one && evidence in other && one[evidence] != other[evidence]
  {
    if evidence in one && evidence in other && one[evidence] != other[evidence] {
      var x :| x in one[evidence];
      var y :| y in other[evidence];
      assert Lists(one, evidence, x) && Lists(other, evidence, y);
      var z :| z in one[evidence] + other[evidence] && (z in one[evidence]) != (z in other[evidence]);
      assert Predicts(lower, ps, evidence, x) && Predicts(lower, qs, evidence, y);
      assert Lists(one, evidence, z) != Lists(other, evidence, z);
    }
  }

  method PairDiscriminates(lower: string -> string, first: Hypothesis, second: Hypothesis) returns (yes: bool)
    ensures yes <==> Discriminates(lower, first, second)
  {
    var one := Observations(lower, first);
    var other := Observations(lower, second);
    var left := one.Keys;
    while left != {}
      invariant left <= one.Keys
      invariant forall e :: e in one.Keys - left ==> !DisagreeOn(lower, first.predictions, second.predictions, e)
      decreases |left|
    {
      var evidence :| evidence in left;
      DisagreeIff(lower, first.predictions, second.predictions, one, other, evidence);
      if evidence in other && one[evidence] != other[evidence] {
        return true;
      }
      left := left - {evidence};
    }
    forall e ensures !DisagreeOn(lower, first.predictions, second.predictions, e) {
      DisagreeIff(lower, first.predictions, second.predictions, one, other, e);
    }
    return false;
  }

  // ----- the pairs, in the order of the two loops -----

  type HypothesisPair = (Hypothesis, Hypothesis)

  /** The pairs of positions that come before (i, j). */
  function Before(hs: seq<Hypothesis>, i: nat, j: nat): (pairs: seq<HypothesisPair>)
    requires i <= |hs| && i < j && (j <= |hs| || j == i + 1)
    decreases i, j
  {
    if j > i + 1 then Before(hs, i, j - 1) + [(hs[i], hs[j - 1])]
    else if i == 0 then []
    else Before(hs, i - 1, |hs|)
  }

  function Pairs(hs: seq<Hypothesis>): seq<HypothesisPair> {
    Before(hs, |hs|, |hs| + 1)
  }

  lemma {:induction false} BeforeHas(hs: seq<Hypothesis>, i: nat, j: nat, p: nat, q: nat)
    requires i <= |hs| && i < j && (j <= |hs| || j == i + 1)
    requires p < q < |hs| && (p < i || (p == i && q < j))
    ensures (hs[p], hs[q]) in Before(hs, i, j)
    decreases i, j
  {
    if j > i + 1 {
      if (p, q) != (i, j - 1) {
        BeforeHas(hs, i, j - 1, p, q);
      }
    } else {
      BeforeHas(hs, i - 1, |hs|, p, q);
    }
  }

  lemma {:induction false} BeforeOnly(hs: seq<Hypothesis>, i: nat, j: nat, k: nat) returns (p: nat, q: nat)
    requires i <= |hs| && i < j && (j <= |hs| || j == i + 1)
    requires k < |Before(hs, i, j)|
    ensures p < q < |hs| && Before(hs, i, j)[k] == (hs[p], hs[q])
    decreases i, j
  {
    if j > i + 1 {
      if k == |Before(hs, i, j - 1)| {
        p, q := i, j - 1;
      } else {
        p, q := BeforeOnly(hs, i, j - 1, k);
      }
    } else {
      p, q := BeforeOnly(hs, i - 1, |hs|, k);
    }
  }

  function IdsOf(pair: HypothesisPair): set<string> {
    {pair.0.id, pair.1.id}
  }

  /** A pair with these two ids has been compared. */
  ghost predicate Seen(pairs: seq<HypothesisPair>, ids: set<string>) {
    exists k :: 0 <= k < |pairs| && IdsOf(pairs[k]) == ids
  }

  function Warning(pair: HypothesisPair): Finding {
    Finding(NotDiscriminating, Warnings, Between(pair.0.id, pair.1.id))
  }

  /** What the loops report: a pair is compared unless a pair with the same ids came before. */
  ghost function Warned(lower: string -> string, pairs: seq<HypothesisPair>): seq<Finding> {
    if pairs == [] then [] else
    var last := |pairs| - 1;
    Warned(lower, pairs[..last])
    + When(!Seen(pairs[..last], IdsOf(pairs[last])) && !Discriminates(lower, pairs[last].0, pairs[last].1),
           [Warning(pairs[last])])
  }

  ghost predicate Remembers(pairs: seq<HypothesisPair>, seen: set<set<string>>) {
    forall ids :: ids in seen <==> Seen(pairs, ids)
  }

  lemma OnePairMore(lower: string -> string, pairs: seq<HypothesisPair>, pair: HypothesisPair, seen: set<set<string>>)
    requires Remembers(pairs, seen)
    ensures Remembers(pairs + [pair], seen + {IdsOf(pair)})
    ensures Warned(lower, pairs + [pair])
            == Warned(lower, pairs) + When(IdsOf(pair) !in seen && !Discriminates(lower, pair.0, pair.1), [Warning(pair)])
  {
    var more := pairs + [pair];
    assert more[..|pairs|] == pairs && more[|pairs|] == pair;
    forall ids ensures ids in seen + {IdsOf(pair)} <==> Seen(more, ids) {
      if ids in seen {
        var k :| 0 <= k < |pairs| && IdsOf(pairs[k]) == ids;
        assert IdsOf(more[k]) == ids;
      }
      if Seen(more, ids) && ids != IdsOf(pair) {
        var k :| 0 <= k < |more| && IdsOf(more[k]) == ids;
        assert pairs[k] == more[k];
      }
      assert IdsOf(more[|pairs|]) == IdsOf(pair);
    }
  }

  /** One turn of the inner loop. */
  method Compare(lower: string -> string, ghost pairs: seq<HypothesisPair>, pair: HypothesisPair,
                 before: set<set<string>>, warned: seq<Finding>)
    returns (seen: set<set<string>>, findings: seq<Finding>)
    requires Remembers(pairs, before) && warned == Warned(lower, pairs)
    ensures Remembers(pairs + [pair], seen) && findings == Warned(lower, pairs + [pair])
  {
    OnePairMore(lower, pairs, pair, before);
    seen, findings := before, warned;
    var ids := IdsOf(pair);
    if ids in seen {
      assert seen + {ids} == seen;
      return;
    }
    seen := seen + {ids};
    var told := PairDiscriminates(lower, pair.0, pair.1);
    if !told {
      findings := findings + [Warning(pair)];
    }
  }

  method NondiscriminationFindings(lower: string -> string, hs: seq<Hypothesis>) returns (findings: seq<Finding>)
    ensures findings == Warned(lower, Pairs(hs))
  {
    findings := [];
    var seen: set<set<string>> := {};
    for i := 0 to |hs|
      invariant Remembers(Before(hs, i, i + 1), seen) && findings == Warned(lower, Before(hs, i, i + 1))
    {
      for j := i + 1 to |hs|
        invariant Remembers(Before(hs, i, j), seen) && findings == Warned(lower, Before(hs, i, j))
      {
        seen, findings := Compare(lower, Before(hs, i, j), (hs[i], hs[j]), seen, findings);
      }
    }
  }

  // ----- what the warnings mean -----

  ghost predicate Reported(findings: seq<Finding>, ids: set<string>) {
    exists k :: 0 <= k < |findings| && findings[k].place.Between?
                && {findings[k].place.first, findings[k].place.second} == ids
  }

  lemma ReportedAppend(a: seq<Finding>, b: seq<Finding>, ids: set<string>)
    ensures Reported(a + b, ids) <==> Reported(a, ids) || Reported(b, ids)
  {
    if Reported(a, ids) {
      var k :| 0 <= k < |a| && a[k].place.Between? && {a[k].place.first, a[k].place.second} == ids;
      assert (a + b)[k] == a[k];
    }
    if Reported(b, ids) {
      var k :| 0 <= k < |b| && b[k].place.Between? && {b[k].place.first, b[k].place.second} == ids;
      assert (a + b)[|a| + k] == b[k];
    }
  }

  /** The first pair, in loop order, that has these ids, and no evidence tells it apart. */
  ghost predicate Settles(lower: string -> string, pairs: seq<HypothesisPair>, k: nat, ids: set<string>) {
    && k < |pairs| && IdsOf(pairs[k]) == ids && !Seen(pairs[..k], ids)
    && !Discriminates(lower, pairs[k].0, pairs[k].1)
  }

  /** What the last pair adds. */
  ghost function Latest(lower: string -> string, pairs: seq<HypothesisPair>): seq<Finding>
    requires pairs != []
  {
    var last := |pairs| - 1;
    When(!Seen(pairs[..last], IdsOf(pairs[last])) && !Discriminates(lower, pairs[last].0, pairs[last].1), [Warning(pairs[last])])
  }

  lemma LatestIsReported(lower: string -> string, pairs: seq<HypothesisPair>, ids: set<string>)
    requires pairs != []
    ensures Reported(Latest(lower, pairs), ids) <==> Settles(lower, pairs, |pairs| - 1, ids)
  {
    if Latest(lower, pairs) != [] {
      assert Latest(lower, pairs)[0] == Warning(pairs[|pairs| - 1]);
    }
  }

  lemma SettledEarlier(lower: string -> string, pairs: seq<HypothesisPair>, k: nat, ids: set<string>)
    requires k < |pairs| - 1
    ensures Settles(lower, pairs[..|pairs| - 1], k, ids) <==> Settles(lower, pairs, k, ids)
  {
    assert pairs[..|pairs| - 1][..k] == pairs[..k];
  }

  /** Two ids are reported just when the first pair that has them is not told apart. */
  lemma {:induction false} ReportedIff(lower: string -> string, pairs: seq<HypothesisPair>, ids: set<string>)
    ensures Reported(Warned(lower, pairs), ids) <==> exists k: nat :: Settles(lower, pairs, k, ids)
  {
    if pairs != [] {
      var last := |pairs| - 1;
      var init := pairs[..last];
      ReportedIff(lower, init, ids);
      ReportedAppend(Warned(lower, init), Latest(lower, pairs), ids);
      LatestIsReported(lower, pairs, ids);
      forall k: nat | k < last ensures Settles(lower, init, k, ids) <==> Settles(lower, pairs, k, ids) {
        SettledEarlier(lower, pairs, k, ids);
      }
    }
  }

  lemma {:induction false} FirstSeen(pairs: seq<HypothesisPair>, ids: set<string>) returns (k: nat)
    requires Seen(pairs, ids)
    ensures k < |pairs| && IdsOf(pairs[k]) == ids && !Seen(pairs[..k], ids)
  {
    var last := |pairs| - 1;
    if Seen(pairs[..last], ids) {
      k := FirstSeen(pairs[..last], ids);
      assert pairs[..last][..k] == pairs[..k];
    } else {
      k := last;
    }
  }

  /** No id pair is reported twice. */
  lemma {:induction false} ReportedOnce(lower: string -> string, pairs: seq<HypothesisPair>)
    ensures forall j, k | 0 <= j < k < |Warned(lower, pairs)| ::
              WarnedIds(Warned(lower, pairs)[j]) != WarnedIds(Warned(lower, pairs)[k])
  {
    if pairs != [] {
      var last := |pairs| - 1;
      var init, ids := pairs[..last], IdsOf(pairs[last]);
      ReportedOnce(lower, init);
      WarnedShape(lower, init);
      var before := Warned(lower, init);
      forall j | 0 <= j < |before| && !Seen(init, ids) ensures WarnedIds(before[j]) != ids {
        assert Reported(before, WarnedIds(before[j]));
        ReportedIff(lower, init, WarnedIds(before[j]));
      }
    }
  }

  function WarnedIds(f: Finding): set<string> {
    if f.place.Between? then {f.place.first, f.place.second} else {}
  }

  lemma {:induction false} WarnedShape(lower: string -> string, pairs: seq<HypothesisPair>)
    ensures forall f :: f in Warned(lower, pairs) ==> f.rule == NotDiscriminating && f.bucket == Warnings && f.place.Between?
  {
    if pairs != [] {
      WarnedShape(lower, pairs[..|pairs| - 1]);
    }
  }

  /** Under different ids every pair is judged: it is reported just when no evidence tells it apart. */
  lemma DistinctIdsAreJudged(lower: string -> string, hs: seq<Hypothesis>, i: nat, j: nat)
    requires forall p, q :: 0 <= p < q < |hs| ==> hs[p].id != hs[q].id
    requires i < j < |hs|
    ensures Reported(Warned(lower, Pairs(hs)), {hs[i].id, hs[j].id}) <==> !Discriminates(lower, hs[i], hs[j])
  {
    var ids := {hs[i].id, hs[j].id};
    forall k: nat | k < |Pairs(hs)| && IdsOf(Pairs(hs)[k]) == ids ensures Pairs(hs)[k] == (hs[i], hs[j]) {
      var p, q := BeforeOnly(hs, |hs|, |hs| + 1, k);
      assert hs[p].id in ids && hs[q].id in ids && hs[i].id in {hs[p].id, hs[q].id};
    }
    BeforeHas(hs, |hs|, |hs| + 1, i, j);
    var at :| 0 <= at < |Pairs(hs)| && Pairs(hs)[at] == (hs[i], hs[j]);
    assert IdsOf(Pairs(hs)[at]) == ids;
    var k := FirstSeen(Pairs(hs), ids);
    ReportedIff(lower, Pairs(hs), ids);
    assert Settles(lower, Pairs(hs), k, ids) <==> !Discriminates(lower, hs[i], hs[j]);
    assert forall m: nat :: Settles(lower, Pairs(hs), m, ids) ==> Pairs(hs)[m] == (hs[i], hs[j]);
  }

  /** Two rivals that share an id hide each other: a pair that no evidence tells apart goes unreported. */
  lemma SharedIdHides(lower: string -> string, a: Hypothesis, b: Hypothesis, c: Hypothesis)
    requires b.id == c.id && a.id != b.id
    requires Discriminates(lower, a, b) && !Discriminates(lower, a, c)
    ensures !Reported(Warned(lower, Pairs([a, b, c])), {a.id, c.id})
  {
    var hs := [a, b, c];
    assert Before(hs, 0, 1) == [];
    assert Before(hs, 0, 2) == [(a, b)];
    assert Before(hs, 0, 3) == [(a, b), (a, c)];
    assert Before(hs, 1, 2) == [(a, b), (a, c)];
    assert Before(hs, 1, 3) == [(a, b), (a, c), (b, c)];
    assert Before(hs, 2, 3) == [(a, b), (a, c), (b, c)];
    assert Pairs(hs) == [(a, b), (a, c), (b, c)];
    ReportedIff(lower, Pairs(hs), {a.id, c.id});
    forall k: nat ensures !Settles(lower, Pairs(hs), k, {a.id, c.id}) {
      if 1 <= k < 3 {
        assert Pairs(hs)[..k][0] == (a, b);
      }
    }
  }

  /** A hypothesis with one prediction. */
  function Expecting(id: string, evidence: string, observation: string): Hypothesis {
    Hypothesis(id, OtherKind, true, "", [Prediction(evidence, observation, false)], "")
  }

  lemma ExpectingPredicts(lower: string -> string, id: string, evidence: string, observation: string, other: string)
    requires !Blank(evidence)
    ensures Predicts(lower, Expecting(id, evidence, observation).predictions, Strip(evidence), other)
            <==> lower(Strip(observation)) == other
  {
    var p := Expecting(id, evidence, observation).predictions[0];
    assert Expects(lower, p, Strip(evidence), other) <==> lower(Strip(observation)) == other;
  }

  /** Three such hypotheses: the third agrees with the first but has the id of the second, and goes unreported. */
  lemma SharedIdHidesThird(lower: string -> string, evidence: string, yes: string, no: string)
    requires !Blank(evidence) && lower(Strip(yes)) != lower(Strip(no))
    ensures var hs := [Expecting("a", evidence, yes), Expecting("b", evidence, no), Expecting("b", evidence, yes)];
            && !Discriminates(lower, hs[0], hs[2])
            && !Reported(Warned(lower, Pairs(hs)), {hs[0].id, hs[2].id})
  {
    var a, b, c := Expecting("a", evidence, yes), Expecting("b", evidence, no), Expecting("b", evidence, yes);
    ExpectingPredicts(lower, "a", evidence, yes, lower(Strip(yes)));
    ExpectingPredicts(lower, "b", evidence, no, lower(Strip(yes)));
    ExpectingPredicts(lower, "b", evidence, no, lower(Strip(no)));
    assert DisagreeOn(lower, a.predictions, b.predictions, Strip(evidence));
    assert a.predictions == c.predictions;
    SharedIdHides(lower, a, b, c);
  }
}
