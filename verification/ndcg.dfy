/**
 Binary nDCG of a ranked answer against expected ids and titles, for any cutoff and any
 positive, strictly decreasing discount, over the reals.
 */
module Ndcg {
  import opened Finite
  import opened Wrappers

  datatype Case = Case(ids: seq<string>, titles: seq<string>, abstention: bool) {
    function Total(): nat {
      if |ids| >= |titles| then |ids| else |titles|
    }
  }

  datatype Observation = Observation(ids: seq<string>, titles: seq<string>) {
    function Count(): nat {
      if |ids| >= |titles| then |ids| else |titles|
    }
  }

  /** The namespaced identity of an expected memory. */
  datatype Key = Id(id: string) | Title(title: string)

  function ValueAt(values: seq<string>, i: nat): Option<string> {
    if i < |values| then Some(values[i]) else None
  }

  /** An expected id at the rank counts before an expected title. */
  function ExpectedKeyAt(c: Case, o: Observation, i: nat): Option<Key> {
    var id := ValueAt(o.ids, i);
    var title := ValueAt(o.titles, i);
    if id.Some? && id.value in c.ids then Some(Id(id.value))
    else if title.Some? && title.value in c.titles then Some(Title(title.value))
    else None
  }

  /** What a hit at each rank, from 0, is worth. */
  ghost predicate IsDiscount(d: nat -> real) {
    (forall i :: d(i) > 0.0) && (forall i, j :: i < j ==> d(j) < d(i))
  }

  function Ideal(d: nat -> real, n: nat): real {
    if n == 0 then 0.0 else Ideal(d, n - 1) + d(n - 1)
  }

  function Seen(c: Case, o: Observation, n: nat): set<Key> {
    if n == 0 then {}
    else Seen(c, o, n - 1) + (if ExpectedKeyAt(c, o, n - 1).Some? then {ExpectedKeyAt(c, o, n - 1).value} else {})
  }

  /** The rank holds an expected memory that no earlier rank holds. */
  predicate NewAt(c: Case, o: Observation, i: nat) {
    ExpectedKeyAt(c, o, i).Some? && ExpectedKeyAt(c, o, i).value !in Seen(c, o, i)
  }

  function Dcg(c: Case, o: Observation, d: nat -> real, n: nat): real {
    if n == 0 then 0.0 else Dcg(c, o, d, n - 1) + if NewAt(c, o, n - 1) then d(n - 1) else 0.0
  }

  function Min(a: nat, b: nat): nat {
    if a <= b then a else b
  }

  function Score(c: Case, o: Observation, d: nat -> real, k: nat): Option<real> {
    var ideal := Ideal(d, Min(k, c.Total()));
    if c.abstention || c.Total() == 0 then None
    else if ideal == 0.0 then Some(0.0)
    else Some(Dcg(c, o, d, Min(k, o.Count())) / ideal)
  }

  method NdcgAt(c: Case, o: Observation, d: nat -> real, k: nat) returns (r: Option<real>)
    ensures r == Score(c, o, d, k)
  {
    var total := c.Total();
    if c.abstention || total == 0 {
      return None;
    }
    var seen: set<Key> := {};
    var dcg := 0.0;
    for index := 0 to Min(k, o.Count())
      invariant seen == Seen(c, o, index)
      invariant dcg == Dcg(c, o, d, index)
    {
      var key := ExpectedKeyAt(c, o, index);
      if key.None? || key.value in seen {
        continue;
      }
      seen := seen + {key.value};
      dcg := dcg + d(index);
    }
    var idcg := 0.0;
    for index := 0 to Min(k, total)
      invariant idcg == Ideal(d, index)
    {
      idcg := idcg + d(index);
    }
    return Some(if idcg == 0.0 then 0.0 else dcg / idcg);
  }

  // ---------- gains ----------

  lemma {:induction false} IdealGrows(d: nat -> real, m: nat, n: nat)
    requires IsDiscount(d) && m <= n
    ensures Ideal(d, m) <= Ideal(d, n)
    ensures m < n ==> Ideal(d, m) < Ideal(d, n)
  {
    if m < n {
      IdealGrows(d, m, n - 1);
    }
  }

  /** How many ranks hold a further expected memory. */
  function Hits(c: Case, o: Observation, n: nat): (hits: nat)
    ensures hits <= n
  {
    if n == 0 then 0 else Hits(c, o, n - 1) + if NewAt(c, o, n - 1) then 1 else 0
  }

  lemma {:induction false} HitsAreSeen(c: Case, o: Observation, n: nat)
    ensures |Seen(c, o, n)| == Hits(c, o, n)
  {
    if n > 0 {
      HitsAreSeen(c, o, n - 1);
      var key := ExpectedKeyAt(c, o, n - 1);
      if key.Some? {
        AddOne(Seen(c, o, n - 1), key.value);
      } else {
        assert Seen(c, o, n) == Seen(c, o, n - 1);
      }
    }
  }

  lemma AddOne(s: set<Key>, key: Key)
    ensures |s + {key}| == |s| + if key in s then 0 else 1
  {
    assert key in s ==> s + {key} == s;
  }

  predicate AllNew(c: Case, o: Observation, n: nat) {
    forall i :: 0 <= i < n ==> NewAt(c, o, i)
  }

  /** Hits are worth at most what as many hits at the top would be worth. */
  lemma {:induction false} HitsBelowIdeal(c: Case, o: Observation, d: nat -> real, n: nat)
    requires IsDiscount(d)
    ensures 0.0 <= Dcg(c, o, d, n) <= Ideal(d, Hits(c, o, n))
  {
    if n > 0 {
      HitsBelowIdeal(c, o, d, n - 1);
      LaterIsWorthLess(d, Hits(c, o, n - 1), n - 1);
    }
  }

  /** They are worth that only when they all stand at the top. */
  lemma {:induction false} BestHitsAreOnTop(c: Case, o: Observation, d: nat -> real, n: nat)
    requires IsDiscount(d) && Dcg(c, o, d, n) == Ideal(d, Hits(c, o, n))
    ensures AllNew(c, o, Hits(c, o, n))
  {
    if n > 0 {
      HitsBelowIdeal(c, o, d, n - 1);
      LaterIsWorthLess(d, Hits(c, o, n - 1), n - 1);
      BestHitsAreOnTop(c, o, d, n - 1);
    }
  }

  lemma LaterIsWorthLess(d: nat -> real, i: nat, j: nat)
    requires IsDiscount(d) && i <= j
    ensures 0.0 < d(j) <= d(i) && Ideal(d, i + 1) == Ideal(d, i) + d(i)
    ensures d(j) == d(i) ==> i == j
  {
  }

  lemma {:induction false} AllNewIsIdeal(c: Case, o: Observation, d: nat -> real, n: nat)
    requires AllNew(c, o, n)
    ensures Dcg(c, o, d, n) == Ideal(d, n)
  {
    if n > 0 {
      AllNewIsIdeal(c, o, d, n - 1);
      assert NewAt(c, o, n - 1);
    }
  }

  lemma {:induction false} DcgGrows(c: Case, o: Observation, d: nat -> real, m: nat, n: nat)
    requires IsDiscount(d) && m <= n
    ensures Dcg(c, o, d, m) <= Dcg(c, o, d, n)
  {
    if m < n {
      DcgGrows(c, o, d, m, n - 1);
    }
  }

  // ---------- how many hits there can be ----------

  function Values(s: seq<string>): set<string> {
    set i | 0 <= i < |s| :: s[i]
  }

  function Distinct(c: Case): nat {
    |Values(c.ids)| + |Values(c.titles)|
  }

  function Keys(ids: set<string>, titles: set<string>): set<Key> {
    (set x | x in ids :: Id(x)) + (set x | x in titles :: Title(x))
  }

  lemma {:induction false} IdsCount(ids: set<string>)
    ensures |set x | x in ids :: Id(x)| == |ids|
  {
    if x :| x in ids {
      IdsCount(ids - {x});
      assert (set y | y in ids :: Id(y)) == (set y | y in ids - {x} :: Id(y)) + {Id(x)};
    } else {
      assert (set y | y in ids :: Id(y)) == {};
    }
  }

  lemma {:induction false} TitlesCount(titles: set<string>)
    ensures |set x | x in titles :: Title(x)| == |titles|
  {
    if x :| x in titles {
      TitlesCount(titles - {x});
      assert (set y | y in titles :: Title(y)) == (set y | y in titles - {x} :: Title(y)) + {Title(x)};
    } else {
      assert (set y | y in titles :: Title(y)) == {};
    }
  }

  lemma KeysCount(ids: set<string>, titles: set<string>)
    ensures |Keys(ids, titles)| == |ids| + |titles|
  {
    IdsCount(ids);
    TitlesCount(titles);
    assert (set x | x in ids :: Id(x)) !! (set x | x in titles :: Title(x));
  }

  lemma {:induction false} SeenAreExpected(c: Case, o: Observation, n: nat)
    ensures Seen(c, o, n) <= Keys(Values(c.ids), Values(c.titles))
  {
    if n > 0 {
      SeenAreExpected(c, o, n - 1);
    }
  }

  lemma HitsBound(c: Case, o: Observation, n: nat)
    ensures Hits(c, o, n) <= Min(n, Distinct(c))
  {
    HitsAreSeen(c, o, n);
    SeenAreExpected(c, o, n);
    Smaller(Seen(c, o, n), Keys(Values(c.ids), Values(c.titles)));
    KeysCount(Values(c.ids), Values(c.titles));
  }

  lemma {:induction false} FewValues(s: seq<string>)
    ensures |Values(s)| <= |s|
  {
    if s != [] {
      var init := s[..|s| - 1];
      FewValues(init);
      assert Values(s) == Values(init) + {s[|s| - 1]};
    }
  }

  lemma OneKindBound(c: Case)
    requires c.ids == [] || c.titles == []
    ensures Distinct(c) <= c.Total()
  {
    FewValues(c.ids);
    FewValues(c.titles);
  }

  // ---------- the score ----------

  lemma RatioOrder(x: real, z: real)
    requires z > 0.0
    ensures x / z <= 1.0 <==> x <= z
    ensures x / z == 1.0 <==> x == z
    ensures x / z >= 0.0 <==> x >= 0.0
  {
    var q := x / z;
    assert q * z == x;
  }

  lemma PositiveIdeal(c: Case, d: nat -> real, k: nat)
    requires IsDiscount(d) && c.Total() > 0 && k > 0
    ensures Ideal(d, Min(k, c.Total())) > 0.0
  {
    IdealGrows(d, 0, Min(k, c.Total()));
  }

  /** What the ranks of an answer that count are worth. */
  function Gain(c: Case, o: Observation, d: nat -> real, k: nat): real {
    Dcg(c, o, d, Min(k, o.Count()))
  }

  lemma ScoreOrder(c: Case, o: Observation, d: nat -> real, k: nat)
    requires IsDiscount(d) && k > 0 && Score(c, o, d, k).Some?
    ensures var ideal := Ideal(d, Min(k, c.Total()));
            && (Score(c, o, d, k).value <= 1.0 <==> Gain(c, o, d, k) <= ideal)
            && (Score(c, o, d, k).value == 1.0 <==> Gain(c, o, d, k) == ideal)
            && (Score(c, o, d, k).value >= 0.0 <==> Gain(c, o, d, k) >= 0.0)
  {
    PositiveIdeal(c, d, k);
    RatioOrder(Gain(c, o, d, k), Ideal(d, Min(k, c.Total())));
  }

  /** A score is given exactly when something is expected and abstention is not. */
  lemma ScoreIsGivenExactlyWhen(c: Case, o: Observation, d: nat -> real, k: nat)
    ensures Score(c, o, d, k).Some? <==> !c.abstention && (c.ids != [] || c.titles != [])
    ensures Score(c, o, d, 0).Some? ==> Score(c, o, d, 0) == Some(0.0)
  {
  }

  /** The most an answer can be worth, whatever was retrieved. */
  lemma GainBound(c: Case, o: Observation, d: nat -> real, k: nat)
    requires IsDiscount(d)
    ensures 0.0 <= Gain(c, o, d, k) <= Ideal(d, Min(k, Distinct(c)))
  {
    var n := Min(k, o.Count());
    HitsBelowIdeal(c, o, d, n);
    HitsBound(c, o, n);
    IdealGrows(d, Hits(c, o, n), Min(k, Distinct(c)));
  }

  /** For a case that declares only ids or only titles the score lies between 0 and 1. */
  lemma OneKindScoreIsNormalized(c: Case, o: Observation, d: nat -> real, k: nat)
    requires IsDiscount(d) && Score(c, o, d, k).Some? && (c.ids == [] || c.titles == [])
    ensures 0.0 <= Score(c, o, d, k).value <= 1.0
  {
    if k > 0 {
      GainBound(c, o, d, k);
      OneKindBound(c);
      IdealGrows(d, Min(k, Distinct(c)), Min(k, c.Total()));
      ScoreOrder(c, o, d, k);
    }
  }

  /** It is 1 exactly when each of the first ranks, as many as can count, holds a further expected memory. */
  lemma OneKindScoreIsOneExactlyWhen(c: Case, o: Observation, d: nat -> real, k: nat)
    requires IsDiscount(d) && k > 0 && Score(c, o, d, k).Some? && (c.ids == [] || c.titles == [])
    ensures Score(c, o, d, k) == Some(1.0) <==> AllNew(c, o, Min(k, c.Total()))
  {
    ScoreOrder(c, o, d, k);
    OneKindBound(c);
    if AllNew(c, o, Min(k, c.Total())) {
      FullAnswerGain(c, o, d, k);
    } else if Gain(c, o, d, k) == Ideal(d, Min(k, c.Total())) {
      IdealAnswerIsFull(c, o, d, k);
    }
  }

  lemma FullAnswerGain(c: Case, o: Observation, d: nat -> real, k: nat)
    requires IsDiscount(d) && Distinct(c) <= c.Total() && AllNew(c, o, Min(k, c.Total()))
    ensures Gain(c, o, d, k) == Ideal(d, Min(k, c.Total()))
  {
    var m := Min(k, c.Total());
    AllNewInRange(c, o, m);
    AllNewIsIdeal(c, o, d, m);
    DcgGrows(c, o, d, m, Min(k, o.Count()));
    GainBound(c, o, d, k);
    IdealGrows(d, Min(k, Distinct(c)), m);
  }

  lemma IdealAnswerIsFull(c: Case, o: Observation, d: nat -> real, k: nat)
    requires IsDiscount(d) && Distinct(c) <= c.Total() && Gain(c, o, d, k) == Ideal(d, Min(k, c.Total()))
    ensures AllNew(c, o, Min(k, c.Total()))
  {
    var n := Min(k, o.Count());
    HitsBelowIdeal(c, o, d, n);
    HitsBound(c, o, n);
    IdealGrows(d, Hits(c, o, n), Min(k, c.Total()));
    BestHitsAreOnTop(c, o, d, n);
  }

  lemma AllNewInRange(c: Case, o: Observation, n: nat)
    requires AllNew(c, o, n)
    ensures n <= o.Count()
  {
    if n > 0 {
      assert NewAt(c, o, n - 1);
    }
  }

  // ---------- what counts at a rank ----------

  /**
   Which memory a rank holds: the retrieved id where it is expected; where it is not, or there is
   none, the retrieved title if that is expected; otherwise nothing.
   */
  lemma KeyIsExact(c: Case, o: Observation, i: nat, x: string)
    ensures ExpectedKeyAt(c, o, i) == Some(Id(x)) <==> i < |o.ids| && o.ids[i] == x && x in c.ids
    ensures ExpectedKeyAt(c, o, i) == Some(Title(x)) <==>
            !(i < |o.ids| && o.ids[i] in c.ids) && i < |o.titles| && o.titles[i] == x && x in c.titles
    ensures ExpectedKeyAt(c, o, i) == None <==>
            !(i < |o.ids| && o.ids[i] in c.ids) && !(i < |o.titles| && o.titles[i] in c.titles)
  {
  }

  lemma {:induction false} SeenMeaning(c: Case, o: Observation, n: nat, key: Key)
    ensures key in Seen(c, o, n) <==> exists j :: 0 <= j < n && ExpectedKeyAt(c, o, j) == Some(key)
  {
    if n > 0 {
      SeenMeaning(c, o, n - 1, key);
    }
  }

  /** A rank is new exactly when it holds an expected memory and no earlier rank holds the same. */
  lemma NewMeaning(c: Case, o: Observation, i: nat)
    ensures NewAt(c, o, i) <==>
            ExpectedKeyAt(c, o, i).Some? && forall j :: 0 <= j < i ==> ExpectedKeyAt(c, o, j) != ExpectedKeyAt(c, o, i)
  {
    if ExpectedKeyAt(c, o, i).Some? {
      SeenMeaning(c, o, i, ExpectedKeyAt(c, o, i).value);
    }
  }

  /** The only new rank of an answer is worth its own discount. */
  lemma {:induction false} OneHitIsWorthItsRank(c: Case, o: Observation, d: nat -> real, n: nat, i: nat)
    requires forall j :: 0 <= j < n ==> (NewAt(c, o, j) <==> j == i)
    ensures Dcg(c, o, d, n) == if i < n then d(i) else 0.0
  {
    if n > 0 {
      OneHitIsWorthItsRank(c, o, d, n - 1, i);
    }
  }

  lemma {:induction false} NoHitNoGain(c: Case, o: Observation, d: nat -> real, n: nat)
    requires IsDiscount(d)
    ensures Dcg(c, o, d, n) == 0.0 <==> forall i :: 0 <= i < n ==> ExpectedKeyAt(c, o, i).None?
  {
    if n > 0 {
      NoHitNoGain(c, o, d, n - 1);
      DcgGrows(c, o, d, 0, n - 1);
      if forall i :: 0 <= i < n - 1 ==> ExpectedKeyAt(c, o, i).None? {
        NewMeaning(c, o, n - 1);
      }
    }
  }

  lemma ZeroScore(c: Case, o: Observation, d: nat -> real, k: nat)
    requires IsDiscount(d) && k > 0 && Score(c, o, d, k).Some?
    ensures Score(c, o, d, k) == Some(0.0) <==> forall i :: 0 <= i < k ==> ExpectedKeyAt(c, o, i).None?
  {
    var n := Min(k, o.Count());
    PositiveIdeal(c, d, k);
    NoHitNoGain(c, o, d, n);
    var q := Dcg(c, o, d, n) / Ideal(d, Min(k, c.Total()));
    assert q * Ideal(d, Min(k, c.Total())) == Dcg(c, o, d, n);
    forall i: nat | n <= i < k ensures ExpectedKeyAt(c, o, i).None? {}
  }

  /** The first ranks hold expected values, all different. */
  predicate DistinctHits(retrieved: seq<string>, expected: seq<string>, n: nat) {
    && n <= |retrieved|
    && (forall i :: 0 <= i < n ==> retrieved[i] in expected)
    && (forall i, j :: 0 <= j < i < n ==> retrieved[j] != retrieved[i])
  }

  /** No rank before the cutoff holds an expected value. */
  predicate NoHits(retrieved: seq<string>, expected: seq<string>, k: nat) {
    forall i :: 0 <= i < k && i < |retrieved| ==> retrieved[i] !in expected
  }

  lemma TitlesNew(c: Case, o: Observation, n: nat)
    requires c.ids == []
    ensures AllNew(c, o, n) <==> DistinctHits(o.titles, c.titles, n)
  {
    forall i: nat | i < n ensures NewAt(c, o, i) <==>
        i < |o.titles| && o.titles[i] in c.titles && forall j :: 0 <= j < i ==> ExpectedKeyAt(c, o, j) != Some(Title(o.titles[i]))
    {
      NewMeaning(c, o, i);
    }
    if AllNew(c, o, n) {
      assert n > 0 ==> NewAt(c, o, n - 1);
      forall i, j | 0 <= j < i < n ensures o.titles[j] != o.titles[i] {
        assert NewAt(c, o, i) && NewAt(c, o, j);
        KeyIsExact(c, o, j, o.titles[j]);
      }
      forall i | 0 <= i < n ensures o.titles[i] in c.titles {
        assert NewAt(c, o, i);
      }
    }
  }

  lemma IdsNew(c: Case, o: Observation, n: nat)
    requires c.titles == []
    ensures AllNew(c, o, n) <==> DistinctHits(o.ids, c.ids, n)
  {
    forall i: nat | i < n ensures NewAt(c, o, i) <==>
        i < |o.ids| && o.ids[i] in c.ids && forall j :: 0 <= j < i ==> ExpectedKeyAt(c, o, j) != Some(Id(o.ids[i]))
    {
      NewMeaning(c, o, i);
    }
    if AllNew(c, o, n) {
      assert n > 0 ==> NewAt(c, o, n - 1);
      forall i, j | 0 <= j < i < n ensures o.ids[j] != o.ids[i] {
        assert NewAt(c, o, i) && NewAt(c, o, j);
        KeyIsExact(c, o, j, o.ids[j]);
      }
      forall i | 0 <= i < n ensures o.ids[i] in c.ids {
        assert NewAt(c, o, i);
      }
    }
  }

  /**
   A case that declares only titles scores 1 exactly when the first ranks, as many as can count,
   hold different expected titles, whatever ids stand beside them, and 0 exactly when none of the
   first k ranks holds one.
   */
  lemma TitlesAloneDecide(c: Case, o: Observation, d: nat -> real, k: nat)
    requires IsDiscount(d) && k > 0 && c.ids == [] && c.titles != [] && !c.abstention
    ensures Score(c, o, d, k) == Some(1.0) <==> DistinctHits(o.titles, c.titles, Min(k, |c.titles|))
    ensures Score(c, o, d, k) == Some(0.0) <==> NoHits(o.titles, c.titles, k)
  {
    OneKindScoreIsOneExactlyWhen(c, o, d, k);
    TitlesNew(c, o, Min(k, |c.titles|));
    ZeroScore(c, o, d, k);
    forall i: nat ensures ExpectedKeyAt(c, o, i).None? <==> !(i < |o.titles| && o.titles[i] in c.titles) {
      KeyIsExact(c, o, i, "");
    }
  }

  /** The same for a case that declares only ids, whatever titles stand beside them. */
  lemma IdsAloneDecide(c: Case, o: Observation, d: nat -> real, k: nat)
    requires IsDiscount(d) && k > 0 && c.titles == [] && c.ids != [] && !c.abstention
    ensures Score(c, o, d, k) == Some(1.0) <==> DistinctHits(o.ids, c.ids, Min(k, |c.ids|))
    ensures Score(c, o, d, k) == Some(0.0) <==> NoHits(o.ids, c.ids, k)
  {
    OneKindScoreIsOneExactlyWhen(c, o, d, k);
    IdsNew(c, o, Min(k, |c.ids|));
    ZeroScore(c, o, d, k);
    forall i: nat ensures ExpectedKeyAt(c, o, i).None? <==> !(i < |o.ids| && o.ids[i] in c.ids) {
      KeyIsExact(c, o, i, "");
    }
  }

  // ---------- both kinds ----------

  /** The values of a list, each once. */
  function Once(s: seq<string>): (r: seq<string>)
    ensures Values(r) == Values(s) && |r| == |Values(s)|
    ensures forall i, j :: 0 <= i < j < |r| ==> r[i] != r[j]
  {
    if s == [] then []
    else
      var last := s[|s| - 1];
      var init := s[..|s| - 1];
      assert Values(s) == Values(init) + {last};
      var before := Once(init);
      if last in Values(init) then before
      else
        assert forall i :: 0 <= i < |before| ==> before[i] in Values(before);
        assert Values(before + [last]) == Values(before) + {last} by {
          forall x | x in Values(before) + {last} ensures x in Values(before + [last]) {
            if x == last {
              assert (before + [last])[|before|] == last;
            } else {
              var i :| 0 <= i < |before| && before[i] == x;
              assert (before + [last])[i] == x;
            }
          }
        }
        before + [last]
  }

  /** Every expected id, then every expected title, each at a rank of its own. */
  function Best(c: Case): Observation {
    var ids, titles := Once(c.ids), Once(c.titles);
    Observation(ids, ids + titles)
  }

  lemma BestKey(c: Case, i: nat)
    requires i < Distinct(c)
    ensures var ids := Once(c.ids);
            ExpectedKeyAt(c, Best(c), i) == Some(if i < |ids| then Id(ids[i]) else Title(Once(c.titles)[i - |ids|]))
  {
    var ids, titles := Once(c.ids), Once(c.titles);
    if i < |ids| {
      assert ids[i] in Values(ids);
    } else {
      assert titles[i - |ids|] in Values(titles);
    }
  }

  lemma BestKeysDiffer(c: Case, i: nat, j: nat)
    requires i < j < Distinct(c)
    ensures ExpectedKeyAt(c, Best(c), i) != ExpectedKeyAt(c, Best(c), j)
  {
    BestKey(c, i);
    BestKey(c, j);
  }

  lemma {:induction false} BestSeen(c: Case, n: nat, i: nat)
    requires n <= i < Distinct(c)
    ensures ExpectedKeyAt(c, Best(c), i).Some? && ExpectedKeyAt(c, Best(c), i).value !in Seen(c, Best(c), n)
    decreases n
  {
    BestKey(c, i);
    if n > 0 {
      BestSeen(c, n - 1, i);
      BestKeysDiffer(c, n - 1, i);
    }
  }

  /** The bound is reached. */
  lemma GainBoundIsReached(c: Case, d: nat -> real, k: nat)
    ensures Gain(c, Best(c), d, k) == Ideal(d, Min(k, Distinct(c)))
  {
    var m := Min(k, Distinct(c));
    assert Best(c).Count() == Distinct(c);
    forall i | 0 <= i < m ensures NewAt(c, Best(c), i) {
      BestSeen(c, i, i);
    }
    AllNewIsIdeal(c, Best(c), d, m);
  }

  /**
   Scores of a case stay at most 1 exactly when the cutoff leaves out every memory beyond the
   longer list, or both lists together hold no more distinct values than the longer one is long.
   */
  lemma ScoreIsNormalizedExactlyWhen(c: Case, d: nat -> real, k: nat)
    requires IsDiscount(d) && k > 0 && !c.abstention && c.Total() > 0
    ensures (forall o :: Score(c, o, d, k).value <= 1.0) <==>
            k <= |c.ids| || k <= |c.titles| || Distinct(c) <= |c.ids| || Distinct(c) <= |c.titles|
  {
    if k <= c.Total() || Distinct(c) <= c.Total() {
      IdealGrows(d, Min(k, Distinct(c)), Min(k, c.Total()));
      forall o ensures Score(c, o, d, k).value <= 1.0 {
        GainBound(c, o, d, k);
        ScoreOrder(c, o, d, k);
      }
    } else {
      IdealGrows(d, Min(k, c.Total()), Min(k, Distinct(c)));
      GainBoundIsReached(c, d, k);
      ScoreOrder(c, Best(c), d, k);
      assert !(Score(c, Best(c), d, k).value <= 1.0);
    }
  }
}
