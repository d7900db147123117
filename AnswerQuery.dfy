/** Answering a query over the graph: the score of a resource for the query's
    stems and entities, the score of a user from the scores of the resources
    linked to them, and the best located resources of the best users. */
module AnswerQuery {
  import opened Wrappers
  import ResourceUtil
  import opened GraphManager

  /** Weight of the stem score against the entity score. */
  const ALPHA: real := 0.6

  // ---------------------------------------------------------------- stem frequencies

  /** A ResourceStem row joined to the Stem row with text `stem`, restricted
      to resource `rid` when one is given. */
  predicate StemRowMatches(t: Tables, l: ResourceStem, stem: string, rid: Option<nat>) {
    l.stem < |t.stems| && t.stems[l.stem] == stem && (rid.None? || l.resource == rid.value)
  }

  /** `ResourceStem.select().join(Stem).where(...).count()` over `links`. */
  function StemCount(t: Tables, links: seq<ResourceStem>, stem: string, rid: Option<nat>): (n: nat)
    ensures n <= |links|
    ensures n == 0 <==> forall i :: 0 <= i < |links| ==> !StemRowMatches(t, links[i], stem, rid)
    decreases |links|
  {
    if links == [] then 0
    else
      StemCount(t, links[..|links| - 1], stem, rid)
        + if StemRowMatches(t, links[|links| - 1], stem, rid) then 1 else 0
  }

  /** tf: occurrences of the stem in the resource. */
  function Tf(t: Tables, rid: nat, stem: string): nat {
    StemCount(t, t.resourceStems, stem, Some(rid))
  }

  /** rf: occurrences of the stem in all resources. */
  function Rf(t: Tables, stem: string): nat {
    StemCount(t, t.resourceStems, stem, None)
  }

  /** The rows counted by tf are among those counted by rf. */
  lemma {:induction false} StemCountRestricted(t: Tables, links: seq<ResourceStem>, stem: string, rid: nat)
    ensures StemCount(t, links, stem, Some(rid)) <= StemCount(t, links, stem, None)
  {
    if links != [] {
      StemCountRestricted(t, links[..|links| - 1], stem, rid);
    }
  }

  // ---------------------------------------------------------------- stem score

  /** irf: the inverse of a resource frequency, 1 when the frequency is 0. */
  function Inverse(rf: nat): (r: real)
    ensures 0.0 < r <= 1.0
    ensures rf > 0 ==> r * rf as real == 1.0
  {
    if rf > 0 then 1.0 / rf as real else 1.0
  }

  /** One query stem's part of the stem score: tf · irf². */
  function StemTerm(tf: nat, rf: nat): real {
    tf as real * (Inverse(rf) * Inverse(rf))
  }

  /** When tf counts a subset of the rows rf counts, a stem adds between 0
      and 1, and 0 exactly when the resource does not contain it. */
  lemma StemTermBounds(tf: nat, rf: nat)
    requires tf <= rf
    ensures 0.0 <= StemTerm(tf, rf) <= 1.0
    ensures StemTerm(tf, rf) == 0.0 <==> tf == 0
  {
    var irf := Inverse(rf);
    assert StemTerm(tf, rf) == (tf as real * irf) * irf;
    if rf > 0 {
      MulMonotone(tf as real, rf as real, irf);
      MulMonotone(tf as real * irf, 1.0, irf);
    }
    if tf > 0 {
      MulPositive(tf as real, irf);
      MulPositive(tf as real * irf, irf);
    }
  }

  lemma MulMonotone(x: real, y: real, c: real)
    requires x <= y && 0.0 <= c
    ensures x * c <= y * c
  {
  }

  lemma MulPositive(x: real, y: real)
    requires 0.0 < x && 0.0 < y
    ensures 0.0 < x * y
  {
  }

  /** The loop over query stems: Σ tf · irf². */
  function StemScore(t: Tables, rid: nat, qs: seq<string>): real
    decreases |qs|
  {
    if qs == [] then 0.0
    else StemScore(t, rid, qs[..|qs| - 1]) + StemTerm(Tf(t, rid, qs[|qs| - 1]), Rf(t, qs[|qs| - 1]))
  }

  /** The stem score lies between 0 and the number of query stems, and is 0
      when no query stem occurs in the resource. */
  lemma {:induction false} StemScoreBounds(t: Tables, rid: nat, qs: seq<string>)
    ensures 0.0 <= StemScore(t, rid, qs) <= |qs| as real
    ensures (forall i :: 0 <= i < |qs| ==> Tf(t, rid, qs[i]) == 0) ==> StemScore(t, rid, qs) == 0.0
  {
    if qs != [] {
      var init := qs[..|qs| - 1];
      var s := qs[|qs| - 1];
      StemScoreBounds(t, rid, init);
      StemCountRestricted(t, t.resourceStems, s, rid);
      StemTermBounds(Tf(t, rid, s), Rf(t, s));
      if forall i :: 0 <= i < |qs| ==> Tf(t, rid, qs[i]) == 0 {
        assert forall i :: 0 <= i < |init| ==> init[i] == qs[i];
      }
    }
  }

  // ---------------------------------------------------------------- entity score

  /** A ResourceEntity row joined to the Entity row named `name`, restricted
      to resource `rid` when one is given. */
  predicate EntityRowMatches(t: Tables, l: ResourceEntity, name: string, rid: Option<nat>) {
    l.entity < |t.entities| && t.entities[l.entity] == name && (rid.None? || l.resource == rid.value)
  }

  /** The rows `ResourceEntity.select().join(Entity).where(...)` returns, in table order. */
  function EntityRows(t: Tables, links: seq<ResourceEntity>, name: string, rid: Option<nat>): (r: seq<ResourceEntity>)
    ensures |r| <= |links|
    ensures forall l :: l in r ==> l in links && EntityRowMatches(t, l, name, rid)
    ensures r == [] <==> forall i :: 0 <= i < |links| ==> !EntityRowMatches(t, links[i], name, rid)
    decreases |links|
  {
    if links == [] then []
    else
      var l := links[|links| - 1];
      EntityRows(t, links[..|links| - 1], name, rid) + if EntityRowMatches(t, l, name, rid) then [l] else []
  }

  /** The rows counted by ef are among those counted by the entity's rf. */
  lemma {:induction false} EntityRowsRestricted(t: Tables, links: seq<ResourceEntity>, name: string, rid: nat)
    ensures |EntityRows(t, links, name, Some(rid))| <= |EntityRows(t, links, name, None)|
  {
    if links != [] {
      EntityRowsRestricted(t, links[..|links| - 1], name, rid);
    }
  }

  function SumRho(rows: seq<ResourceEntity>): real
    decreases |rows|
  {
    if rows == [] then 0.0 else SumRho(rows[..|rows| - 1]) + rows[|rows| - 1].rho
  }

  lemma {:induction false} SumRhoBounds(rows: seq<ResourceEntity>)
    requires forall l :: l in rows ==> 0.0 <= l.rho <= 1.0
    ensures 0.0 <= SumRho(rows) <= |rows| as real
  {
    if rows != [] {
      SumRhoBounds(rows[..|rows| - 1]);
      assert rows[|rows| - 1] in rows;
    }
  }

  lemma {:induction false} SumRhoNonNegative(rows: seq<ResourceEntity>)
    requires forall l :: l in rows ==> 0.0 <= l.rho
    ensures 0.0 <= SumRho(rows)
  {
    if rows != [] {
      SumRhoNonNegative(rows[..|rows| - 1]);
      assert rows[|rows| - 1] in rows;
    }
  }

  /** The entity weight: the mean rho of the rows (0 without rows), plus 1
      when that mean is positive. */
  function EntityWeight(rows: seq<ResourceEntity>): real {
    var mean := if |rows| > 0 then SumRho(rows) / |rows| as real else 0.0;
    if mean > 0.0 then mean + 1.0 else mean
  }

  /** With relevances between 0 and 1 the weight is 0 or in (1, 2], and it is
      0 for an entity the resource does not mention. */
  lemma EntityWeightRange(rows: seq<ResourceEntity>)
    requires forall l :: l in rows ==> 0.0 <= l.rho <= 1.0
    ensures EntityWeight(rows) == 0.0 || 1.0 < EntityWeight(rows) <= 2.0
    ensures rows == [] ==> EntityWeight(rows) == 0.0
  {
    SumRhoBounds(rows);
    if |rows| > 0 {
      var n := |rows| as real;
      assert SumRho(rows) / n <= n / n == 1.0;
    }
  }

  /** One query entity's part of the entity score: weight · ef · eirf². */
  function EntityTerm(rows: seq<ResourceEntity>, rf: nat): real {
    EntityWeight(rows) * |rows| as real * (Inverse(rf) * Inverse(rf))
  }

  /** The rows of resource `rid` that name the entity. */
  function ResourceEntityRows(t: Tables, rid: nat, name: string): seq<ResourceEntity> {
    EntityRows(t, t.resourceEntities, name, Some(rid))
  }

  /** The entity's resource frequency over all resources. */
  function EntityRf(t: Tables, name: string): nat {
    |EntityRows(t, t.resourceEntities, name, None)|
  }

  /** The loop over query entities: Σ weight · ef · eirf². */
  function EntityScore(t: Tables, rid: nat, qe: seq<string>): real
    decreases |qe|
  {
    if qe == [] then 0.0
    else
      var e := qe[|qe| - 1];
      EntityScore(t, rid, qe[..|qe| - 1]) + EntityTerm(ResourceEntityRows(t, rid, e), EntityRf(t, e))
  }

  lemma EntityTermNonNegative(rows: seq<ResourceEntity>, rf: nat)
    requires forall l :: l in rows ==> 0.0 <= l.rho
    ensures 0.0 <= EntityTerm(rows, rf)
  {
    SumRhoNonNegative(rows);
    var irf := Inverse(rf);
    var w := EntityWeight(rows);
    assert 0.0 <= w;
    MulMonotone(0.0, w, |rows| as real);
    MulMonotone(0.0, w * |rows| as real, irf * irf);
  }

  /** With non-negative relevances the entity score is non-negative. */
  lemma {:induction false} EntityScoreNonNegative(t: Tables, rid: nat, qe: seq<string>)
    requires forall l :: l in t.resourceEntities ==> 0.0 <= l.rho
    ensures 0.0 <= EntityScore(t, rid, qe)
  {
    if qe != [] {
      var e := qe[|qe| - 1];
      EntityScoreNonNegative(t, rid, qe[..|qe| - 1]);
      EntityTermNonNegative(ResourceEntityRows(t, rid, e), EntityRf(t, e));
    }
  }

  /** The entity score is 0 when the resource mentions no query entity. */
  lemma {:induction false} EntityScoreZero(t: Tables, rid: nat, qe: seq<string>)
    requires forall i :: 0 <= i < |qe| ==> ResourceEntityRows(t, rid, qe[i]) == []
    ensures EntityScore(t, rid, qe) == 0.0
  {
    if qe != [] {
      var init := qe[..|qe| - 1];
      assert forall i :: 0 <= i < |init| ==> init[i] == qe[i];
      EntityScoreZero(t, rid, init);
    }
  }

  // ---------------------------------------------------------------- compute_resource_score

  /** The score of resource `rid` for a query: ALPHA blends the two parts. */
  function ResourceScoreValue(t: Tables, rid: nat, qs: seq<string>, qe: seq<string>): real {
    ALPHA * StemScore(t, rid, qs) + (1.0 - ALPHA) * EntityScore(t, rid, qe)
  }

  /** A resource that contains no query stem and mentions no query entity scores 0. */
  lemma ResourceScoreZero(t: Tables, rid: nat, qs: seq<string>, qe: seq<string>)
    requires forall i :: 0 <= i < |qs| ==> Tf(t, rid, qs[i]) == 0
    requires forall i :: 0 <= i < |qe| ==> ResourceEntityRows(t, rid, qe[i]) == []
    ensures ResourceScoreValue(t, rid, qs, qe) == 0.0
  {
    StemScoreBounds(t, rid, qs);
    EntityScoreZero(t, rid, qe);
  }

  /** With non-negative relevances every resource score is non-negative, and
      the stem part is at most ALPHA per query stem. */
  lemma ResourceScoreNonNegative(t: Tables, rid: nat, qs: seq<string>, qe: seq<string>)
    requires forall l :: l in t.resourceEntities ==> 0.0 <= l.rho
    ensures 0.0 <= ResourceScoreValue(t, rid, qs, qe)
    ensures qe == [] ==> ResourceScoreValue(t, rid, qs, qe) <= ALPHA * |qs| as real
  {
    StemScoreBounds(t, rid, qs);
    if qe != [] {
      EntityScoreNonNegative(t, rid, qe);
    }
  }

  /** The stem table of the example below: stem 0 linked to resources 0, 1, 0, 2, 0. */
  function ExampleTables(): Tables {
    Tables([], [], [], ["london"], [], [ResourceStem(0, 0), ResourceStem(0, 1), ResourceStem(0, 0),
                                       ResourceStem(0, 2), ResourceStem(0, 0)], [], [], [])
  }

  lemma ExampleTf()
    ensures Tf(ExampleTables(), 0, "london") == 3
  {
    var t := ExampleTables();
    var links := t.resourceStems;
    assert links[..1][..0] == [] && links[..2][..1] == links[..1] && links[..3][..2] == links[..2];
    assert links[..4][..3] == links[..3] && links[..5][..4] == links[..4];
    assert StemCount(t, links[..1], "london", Some(0)) == 1;
    assert StemCount(t, links[..2], "london", Some(0)) == 1;
    assert StemCount(t, links[..3], "london", Some(0)) == 2;
    assert StemCount(t, links[..4], "london", Some(0)) == 2;
    assert links[..5] == links;
  }

  lemma ExampleRf()
    ensures Rf(ExampleTables(), "london") == 5
  {
    var t := ExampleTables();
    var links := t.resourceStems;
    assert links[..1][..0] == [] && links[..2][..1] == links[..1] && links[..3][..2] == links[..2];
    assert links[..4][..3] == links[..3] && links[..5][..4] == links[..4];
    assert StemCount(t, links[..1], "london", None) == 1;
    assert StemCount(t, links[..2], "london", None) == 2;
    assert StemCount(t, links[..3], "london", None) == 3;
    assert StemCount(t, links[..4], "london", None) == 4;
    assert links[..5] == links;
  }

  /** A stem found 3 times in the resource and 5 times overall, and no
      entities: 0.6 · 3/25 = 0.072. */
  lemma ResourceScoreExample()
    ensures ResourceScoreValue(ExampleTables(), 0, ["london"], []) == 0.072
  {
    ExampleTf();
    ExampleRf();
    assert ["london"][..0] == [];
  }

  /** The loop over query stems of compute_resource_score. */
  method StemScoreOf(store: GraphStore, rid: nat, qs: seq<string>) returns (stemScore: real)
    ensures stemScore == StemScore(store.Snapshot(), rid, qs)
  {
    var t := store.Snapshot();
    stemScore := 0.0;
    for i := 0 to |qs|
      invariant stemScore == StemScore(t, rid, qs[..i])
    {
      var tf := StemCount(t, store.resourceStems, qs[i], Some(rid));
      var rf := StemCount(t, store.resourceStems, qs[i], None);
      var irf := if rf > 0 then 1.0 / rf as real else 1.0;
      stemScore := stemScore + tf as real * (irf * irf);
      assert qs[..i + 1][..i] == qs[..i];
    }
    assert qs[..|qs|] == qs;
  }

  /** The innermost loop of compute_resource_score: the mean rho of the rows,
      plus 1 when positive. */
  method EntityWeightOf(rows: seq<ResourceEntity>) returns (weight: real)
    ensures weight == EntityWeight(rows)
  {
    weight := 0.0;
    var count := 0.0;
    for j := 0 to |rows|
      invariant count == j as real && weight == SumRho(rows[..j])
    {
      count := count + 1.0;
      weight := weight + rows[j].rho;
      assert rows[..j + 1][..j] == rows[..j];
    }
    assert rows[..|rows|] == rows;
    if count > 0.0 {
      weight := weight / count;
    }
    if weight > 0.0 {
      weight := weight + 1.0;
    }
  }

  /** One iteration of the loop over query entities. */
  method EntityTermOf(store: GraphStore, rid: nat, e: string) returns (term: real)
    ensures term == EntityTerm(ResourceEntityRows(store.Snapshot(), rid, e), EntityRf(store.Snapshot(), e))
  {
    var t := store.Snapshot();
    var rows := EntityRows(t, t.resourceEntities, e, Some(rid));
    var rf := |EntityRows(t, t.resourceEntities, e, None)|;
    term := WeightedEntityTerm(rows, rf);
  }

  /** weight · ef · eirf² for the rows of one entity. */
  method WeightedEntityTerm(rows: seq<ResourceEntity>, rf: nat) returns (term: real)
    ensures term == EntityTerm(rows, rf)
  {
    var eirf := Inverse(rf);
    var weight := EntityWeightOf(rows);
    term := weight * |rows| as real * (eirf * eirf);
  }

  /** The loop over query entities of compute_resource_score. */
  method EntityScoreOf(store: GraphStore, rid: nat, qe: seq<string>) returns (entityScore: real)
    ensures entityScore == EntityScore(store.Snapshot(), rid, qe)
  {
    var t := store.Snapshot();
    entityScore := 0.0;
    for i := 0 to |qe|
      invariant entityScore == EntityScore(t, rid, qe[..i])
    {
      var term := EntityTermOf(store, rid, qe[i]);
      entityScore := entityScore + term;
      assert qe[..i + 1][..i] == qe[..i];
    }
    assert qe[..|qe|] == qe;
  }

  /** compute_resource_score without its final save. */
  method ResourceScoreOf(store: GraphStore, rid: nat, qs: seq<string>, qe: seq<string>) returns (score: real)
    ensures score == ResourceScoreValue(store.Snapshot(), rid, qs, qe)
  {
    var stemScore := StemScoreOf(store, rid, qs);
    var entityScore := EntityScoreOf(store, rid, qe);
    score := ALPHA * stemScore + (1.0 - ALPHA) * entityScore;
  }

  /** compute_resource_score: appends a new ResourceScore row, whatever rows
      the resource already has. */
  method ComputeResourceScore(store: GraphStore, resource: Resource, qs: seq<string>, qe: seq<string>)
    requires store.Valid() && resource.uid < |store.resources|
    modifies store`resourceScores
    ensures store.Valid()
    ensures store.resourceScores
         == old(store.resourceScores) + [ResourceScore(resource.uid, ResourceScoreValue(old(store.Snapshot()), resource.uid, qs, qe))]
  {
    var score := ResourceScoreOf(store, resource.uid, qs, qe);
    store.SaveResourceScore(resource.uid, score);
  }

  // ---------------------------------------------------------------- ordering

  /** A row of an `ORDER BY score DESC` query: a key and its score. */
  datatype Ranked = Ranked(id: nat, score: real)

  predicate SortedDesc(xs: seq<Ranked>) {
    forall i, j :: 0 <= i < j < |xs| ==> xs[i].score >= xs[j].score
  }

  function Insert(x: Ranked, xs: seq<Ranked>): (r: seq<Ranked>)
    ensures |r| == |xs| + 1
    decreases |xs|
  {
    if xs == [] then [x]
    else if x.score >= xs[0].score then [x] + xs
    else [xs[0]] + Insert(x, xs[1..])
  }

  lemma {:induction false} InsertSpec(x: Ranked, xs: seq<Ranked>)
    ensures multiset(Insert(x, xs)) == multiset(xs) + multiset{x}
    ensures SortedDesc(xs) ==> SortedDesc(Insert(x, xs))
  {
    InsertPermutes(x, xs);
    if SortedDesc(xs) {
      InsertSorted(x, xs);
    }
  }

  lemma {:induction false} InsertPermutes(x: Ranked, xs: seq<Ranked>)
    ensures multiset(Insert(x, xs)) == multiset(xs) + multiset{x}
  {
    if xs != [] && x.score < xs[0].score {
      InsertPermutes(x, xs[1..]);
      assert xs == [xs[0]] + xs[1..];
    }
  }

  lemma {:induction false} InsertSorted(x: Ranked, xs: seq<Ranked>)
    requires SortedDesc(xs)
    ensures SortedDesc(Insert(x, xs))
  {
    if xs != [] && x.score < xs[0].score {
      InsertSorted(x, xs[1..]);
      InsertPermutes(x, xs[1..]);
      var r := Insert(x, xs);
      var rest := Insert(x, xs[1..]);
      assert r == [xs[0]] + rest;
      forall k | 0 < k < |r|
        ensures r[0].score >= r[k].score
      {
        assert r[k] == rest[k - 1];
        assert rest[k - 1] in multiset(rest);
        assert rest[k - 1] == x || rest[k - 1] in multiset(xs[1..]);
      }
    }
  }

  function SortDesc(xs: seq<Ranked>): (r: seq<Ranked>)
    ensures |r| == |xs|
    decreases |xs|
  {
    if xs == [] then [] else Insert(xs[0], SortDesc(xs[1..]))
  }

  lemma {:induction false} SortDescSpec(xs: seq<Ranked>)
    ensures SortedDesc(SortDesc(xs))
    ensures multiset(SortDesc(xs)) == multiset(xs)
  {
    if xs != [] {
      SortDescSpec(xs[1..]);
      InsertSpec(xs[0], SortDesc(xs[1..]));
      assert xs == [xs[0]] + xs[1..];
    }
  }

  /** `LIMIT n` */
  function Take(xs: seq<Ranked>, n: nat): (r: seq<Ranked>)
    ensures |r| <= n && |r| <= |xs|
  {
    if |xs| <= n then xs else xs[..n]
  }

  /** What a limit drops is exactly the tail past the limit. */
  lemma TakeRest(s: seq<Ranked>, n: nat)
    requires n < |s|
    ensures multiset(s) - multiset(Take(s, n)) == multiset(s[n..])
  {
    assert s == s[..n] + s[n..];
  }

  /** The rows a limit drops score no higher than the rows it keeps. */
  lemma TakeDominates(s: seq<Ranked>, n: nat)
    requires SortedDesc(s)
    ensures forall x, y :: x in Take(s, n) && y in multiset(s) - multiset(Take(s, n)) ==> y.score <= x.score
  {
    if n < |s| {
      TakeRest(s, n);
      forall x, y | x in s[..n] && y in s[n..]
        ensures y.score <= x.score
      {
        var i :| 0 <= i < n && s[..n][i] == x;
        var j :| 0 <= j < |s| - n && s[n..][j] == y;
        assert s[i] == x && s[n + j] == y;
      }
    }
  }

  /** `ORDER BY score DESC LIMIT n` keeps at most n rows, in descending
      order, taken from the input, and no row left out outscores a row kept. */
  lemma TopSpec(xs: seq<Ranked>, n: nat)
    ensures SortedDesc(Take(SortDesc(xs), n))
    ensures multiset(Take(SortDesc(xs), n)) <= multiset(xs)
    ensures forall x, y :: x in Take(SortDesc(xs), n) && y in multiset(xs) - multiset(Take(SortDesc(xs), n)) ==> y.score <= x.score
  {
    var s := SortDesc(xs);
    SortDescSpec(xs);
    TakeSpec(s, n);
    TakeDominates(s, n);
  }

  /** A limit keeps a sorted prefix. */
  lemma TakeSpec(s: seq<Ranked>, n: nat)
    requires SortedDesc(s)
    ensures SortedDesc(Take(s, n))
    ensures multiset(Take(s, n)) <= multiset(s)
  {
    if |s| > n {
      assert s == s[..n] + s[n..];
      assert multiset(s) == multiset(s[..n]) + multiset(s[n..]);
    }
  }

  /** Every row kept by `ORDER BY score DESC LIMIT n` is an input row. */
  lemma TopMembers(xs: seq<Ranked>, n: nat)
    ensures forall x :: x in Take(SortDesc(xs), n) ==> x in xs
  {
    TopSpec(xs, n);
    forall x | x in Take(SortDesc(xs), n)
      ensures x in xs
    {
      assert x in multiset(Take(SortDesc(xs), n));
    }
  }

  // ---------------------------------------------------------------- compute_user_score

  /** The score rows of resource `rid`, as ranked rows, in table order. */
  function ScoresOf(scores: seq<ResourceScore>, rid: nat): (r: seq<Ranked>)
    ensures forall x :: x in r ==> x.id == rid && ResourceScore(rid, x.score) in scores
    decreases |scores|
  {
    if scores == [] then []
    else
      var s := scores[|scores| - 1];
      ScoresOf(scores[..|scores| - 1], rid) + if s.resource == rid then [Ranked(rid, s.score)] else []
  }

  /** `Resource JOIN ResourceUser JOIN ResourceScore WHERE ResourceUser.user == uid`
      over `edges`: one row per edge of the user and score row of its resource. */
  function UserRows(t: Tables, edges: seq<ResourceUser>, uid: nat): (r: seq<Ranked>)
    ensures forall x :: x in r ==> x.id < |t.resources| && ResourceScore(x.id, x.score) in t.resourceScores
    ensures forall x :: x in r ==> exists e :: e in edges && e.user == uid && e.resource == x.id
    decreases |edges|
  {
    if edges == [] then []
    else UserRows(t, edges[..|edges| - 1], uid) + EdgeRows(t, edges[|edges| - 1], uid)
  }

  /** The joined rows of one edge: the score rows of its resource when the
      edge is the user's and the resource is stored. */
  function EdgeRows(t: Tables, e: ResourceUser, uid: nat): (r: seq<Ranked>)
    ensures forall x :: x in r ==> e.user == uid && e.resource == x.id && x.id < |t.resources|
    ensures forall x :: x in r ==> ResourceScore(x.id, x.score) in t.resourceScores
  {
    if e.user == uid && e.resource < |t.resources| then ScoresOf(t.resourceScores, e.resource) else []
  }

  /** The join keeps every score row of the resource, repeats included. */
  lemma {:induction false} ScoresOfMultiplicity(scores: seq<ResourceScore>, rid: nat, x: Ranked)
    ensures multiset(ScoresOf(scores, rid))[x] == if x.id == rid then multiset(scores)[ResourceScore(rid, x.score)] else 0
    decreases |scores|
  {
    if scores != [] {
      var init := scores[..|scores| - 1];
      ScoresOfMultiplicity(init, rid, x);
      assert scores == init + [scores[|scores| - 1]];
    }
  }

  /** One edge contributes each score row of its resource once. */
  lemma EdgeRowsMultiplicity(t: Tables, e: ResourceUser, uid: nat, x: Ranked)
    ensures multiset(EdgeRows(t, e, uid))[x]
         == if x.id < |t.resources| && IsEdge(uid, x.id)(e)
            then multiset(t.resourceScores)[ResourceScore(x.id, x.score)] else 0
  {
    if e.user == uid && e.resource < |t.resources| {
      ScoresOfMultiplicity(t.resourceScores, e.resource, x);
    }
  }

  /** The number of the user's edges to resource `rid`. */
  function EdgeCount(edges: seq<ResourceUser>, uid: nat, rid: nat): nat
    decreases |edges|
  {
    if edges == [] then 0
    else EdgeCount(edges[..|edges| - 1], uid, rid) + if IsEdge(uid, rid)(edges[|edges| - 1]) then 1 else 0
  }

  /** The join holds each score row of a stored resource once per edge of the
      user to it, and nothing else. */
  lemma UserRowsMultiplicity(t: Tables, edges: seq<ResourceUser>, uid: nat, x: Ranked)
    ensures multiset(UserRows(t, edges, uid))[x]
         == if x.id < |t.resources|
            then EdgeCount(edges, uid, x.id) * multiset(t.resourceScores)[ResourceScore(x.id, x.score)]
            else 0
  {
    if x.id < |t.resources| {
      StoredRowsMultiplicity(t, edges, uid, x);
      CopiesProduct(EdgeCount(edges, uid, x.id), multiset(t.resourceScores)[ResourceScore(x.id, x.score)]);
    }
  }

  /** `n` copies of a count `m`, added up. */
  function Copies(n: nat, m: nat): nat {
    if n == 0 then 0 else Copies(n - 1, m) + m
  }

  lemma {:induction false} CopiesProduct(n: nat, m: nat)
    ensures Copies(n, m) == n * m
  {
    if n > 0 {
      CopiesProduct(n - 1, m);
    }
  }

  lemma {:induction false} StoredRowsMultiplicity(t: Tables, edges: seq<ResourceUser>, uid: nat, x: Ranked)
    requires x.id < |t.resources|
    ensures multiset(UserRows(t, edges, uid))[x]
         == Copies(EdgeCount(edges, uid, x.id), multiset(t.resourceScores)[ResourceScore(x.id, x.score)])
    decreases |edges|
  {
    if edges != [] {
      var init := edges[..|edges| - 1];
      var e := edges[|edges| - 1];
      var m := multiset(t.resourceScores)[ResourceScore(x.id, x.score)];
      StoredRowsMultiplicity(t, init, uid, x);
      EdgeRowsMultiplicity(t, e, uid, x);
      CountStep(UserRows(t, init, uid), EdgeRows(t, e, uid), x, EdgeCount(init, uid, x.id), IsEdge(uid, x.id)(e), m);
    }
  }

  /** Counting one more edge adds one more copy of each score row. */
  lemma CountStep(before: seq<Ranked>, here: seq<Ranked>, x: Ranked, n: nat, edge: bool, m: nat)
    requires multiset(before)[x] == Copies(n, m)
    requires multiset(here)[x] == if edge then m else 0
    ensures multiset(before + here)[x] == Copies(n + if edge then 1 else 0, m)
  {
  }

  /** The at most 100 best-scored rows compute_user_score iterates over. */
  function TopResources(t: Tables, uid: nat): seq<Ranked> {
    Take(SortDesc(UserRows(t, t.resourceUsers, uid)), 100)
  }

  function IsScoreOf(rid: nat): ResourceScore -> bool {
    (s: ResourceScore) => s.resource == rid
  }

  function IsEdge(uid: nat, rid: nat): ResourceUser -> bool {
    (e: ResourceUser) => e.user == uid && e.resource == rid
  }

  /** `ResourceScore.select().where(resource == rid).get().score`: the first score row. */
  function FirstScore(t: Tables, rid: nat): Option<real> {
    match FirstIndex(t.resourceScores, IsScoreOf(rid))
    case Some(i) => Some(t.resourceScores[i].score)
    case None => None
  }

  /** `ResourceUser.select().where(user == uid & resource == rid).get().distance` */
  function FirstDistance(t: Tables, uid: nat, rid: nat): Option<int> {
    match FirstIndex(t.resourceUsers, IsEdge(uid, rid))
    case Some(i) => Some(t.resourceUsers[i].distance)
    case None => None
  }

  /** The weight of a resource seen at a given distance from the user. */
  function DistanceWeight(distance: int): (w: real)
    ensures 0.5 <= w <= 1.0
    ensures distance == 1 ==> w == 0.75
    ensures distance == 2 ==> w == 0.5
    ensures distance != 1 && distance != 2 ==> w == 1.0
  {
    if distance == 1 then 0.75 else if distance == 2 then 0.5 else 1.0
  }

  /** What one row of the loop adds: the resource's first score weighted by
      the distance of the user's first edge to it (0 when the lookups fail,
      which UserRowsResolve shows does not happen). */
  function Contribution(t: Tables, uid: nat, rid: nat): real {
    if FirstScore(t, rid).Some? && FirstDistance(t, uid, rid).Some?
    then FirstScore(t, rid).value * DistanceWeight(FirstDistance(t, uid, rid).value)
    else 0.0
  }

  /** Every row the join yields has a score row and an edge for the lookups to find. */
  lemma UserRowsResolve(t: Tables, uid: nat, x: Ranked)
    requires x in UserRows(t, t.resourceUsers, uid)
    ensures FirstScore(t, x.id).Some? && FirstDistance(t, uid, x.id).Some?
  {
    var e :| e in t.resourceUsers && e.user == uid && e.resource == x.id;
    var k :| 0 <= k < |t.resourceUsers| && t.resourceUsers[k] == e;
    assert IsEdge(uid, x.id)(t.resourceUsers[k]);
    var s := ResourceScore(x.id, x.score);
    var m :| 0 <= m < |t.resourceScores| && t.resourceScores[m] == s;
    assert IsScoreOf(x.id)(t.resourceScores[m]);
  }

  function WeightedSum(t: Tables, uid: nat, rows: seq<Ranked>): real
    decreases |rows|
  {
    if rows == [] then 0.0
    else WeightedSum(t, uid, rows[..|rows| - 1]) + Contribution(t, uid, rows[|rows| - 1].id)
  }

  /** compute_user_score's value. */
  function UserScoreValue(t: Tables, uid: nat): real {
    WeightedSum(t, uid, TopResources(t, uid))
  }

  /** With non-negative scores each row adds between half its resource's
      first score and that score. */
  lemma ContributionBounds(t: Tables, uid: nat, rid: nat)
    requires FirstScore(t, rid).Some? && FirstDistance(t, uid, rid).Some?
    requires 0.0 <= FirstScore(t, rid).value
    ensures 0.5 * FirstScore(t, rid).value <= Contribution(t, uid, rid) <= FirstScore(t, rid).value
  {
    var score := FirstScore(t, rid).value;
    var w := DistanceWeight(FirstDistance(t, uid, rid).value);
    assert score * 0.5 <= score * w <= score * 1.0;
  }

  lemma {:induction false} WeightedSumNonNegative(t: Tables, uid: nat, rows: seq<Ranked>)
    requires forall s :: s in t.resourceScores ==> 0.0 <= s.score
    ensures 0.0 <= WeightedSum(t, uid, rows)
  {
    if rows != [] {
      WeightedSumNonNegative(t, uid, rows[..|rows| - 1]);
      var rid := rows[|rows| - 1].id;
      match FirstIndex(t.resourceScores, IsScoreOf(rid))
      case None =>
      case Some(i) =>
        assert t.resourceScores[i] in t.resourceScores;
        if FirstDistance(t, uid, rid).Some? {
          ContributionBounds(t, uid, rid);
        }
    }
  }

  /** The user score sums at most 100 rows, the best-scored rows of the user,
      and is non-negative when every resource score is. */
  lemma UserScoreSpec(t: Tables, uid: nat)
    ensures |TopResources(t, uid)| <= 100
    ensures forall x :: x in TopResources(t, uid) ==> FirstScore(t, x.id).Some? && FirstDistance(t, uid, x.id).Some?
    ensures (forall s :: s in t.resourceScores ==> 0.0 <= s.score) ==> 0.0 <= UserScoreValue(t, uid)
  {
    var rows := UserRows(t, t.resourceUsers, uid);
    TopSpec(rows, 100);
    forall x | x in TopResources(t, uid)
      ensures FirstScore(t, x.id).Some? && FirstDistance(t, uid, x.id).Some?
    {
      assert x in multiset(TopResources(t, uid));
      assert x in multiset(rows);
      UserRowsResolve(t, uid, x);
    }
    if forall s :: s in t.resourceScores ==> 0.0 <= s.score {
      WeightedSumNonNegative(t, uid, TopResources(t, uid));
    }
  }

  /** Two resources scored 10 and 5, linked to user 0 at distances 0 and 1. */
  function UserExampleTables(): Tables {
    var r0 := Resource(0, "a", "", "", "", None, None, None);
    var r1 := Resource(1, "b", "", "", "", None, None, None);
    Tables([], [r0, r1], [ResourceUser(0, 0, 0), ResourceUser(0, 1, 1)], [], [], [], [], [],
           [ResourceScore(0, 10.0), ResourceScore(1, 5.0)])
  }

  /** The join yields both resources, best first. */
  lemma UserExampleRows()
    ensures TopResources(UserExampleTables(), 0) == [Ranked(0, 10.0), Ranked(1, 5.0)]
  {
    var t := UserExampleTables();
    var scores := t.resourceScores;
    assert scores[..1][..0] == [];
    assert ScoresOf(scores, 0) == [Ranked(0, 10.0)];
    assert ScoresOf(scores, 1) == [Ranked(1, 5.0)];
    var edges := t.resourceUsers;
    assert edges[..1][..0] == [];
    assert UserRows(t, edges, 0) == [Ranked(0, 10.0), Ranked(1, 5.0)];
    assert SortDesc([Ranked(1, 5.0)]) == [Ranked(1, 5.0)];
  }

  /** Each resource's lookups find its score and its edge. */
  lemma UserExampleContributions()
    ensures Contribution(UserExampleTables(), 0, 0) == 10.0
    ensures Contribution(UserExampleTables(), 0, 1) == 3.75
  {
    var t := UserExampleTables();
    assert IsScoreOf(0)(t.resourceScores[0]) && !IsScoreOf(1)(t.resourceScores[0]);
    assert IsScoreOf(1)(t.resourceScores[1]);
    assert IsEdge(0, 0)(t.resourceUsers[0]) && !IsEdge(0, 1)(t.resourceUsers[0]);
    assert IsEdge(0, 1)(t.resourceUsers[1]);
  }

  lemma UserExampleSum()
    ensures WeightedSum(UserExampleTables(), 0, [Ranked(0, 10.0), Ranked(1, 5.0)]) == 13.75
  {
    UserExampleContributions();
    var rows := [Ranked(0, 10.0), Ranked(1, 5.0)];
    assert rows[..1][..0] == [];
    assert WeightedSum(UserExampleTables(), 0, rows[..1]) == 10.0;
  }

  /** Scores 10 and 5 at distances 0 and 1: 10 · 1 + 5 · 0.75 = 13.75. */
  lemma UserScoreExample()
    ensures UserScoreValue(UserExampleTables(), 0) == 13.75
  {
    UserExampleRows();
    UserExampleSum();
  }

  /** The loop of compute_user_score over the given rows. */
  method WeightedSumOf(store: GraphStore, uid: nat, rows: seq<Ranked>) returns (score: real)
    ensures score == WeightedSum(store.Snapshot(), uid, rows)
  {
    var t := store.Snapshot();
    score := 0.0;
    for i := 0 to |rows|
      invariant score == WeightedSum(t, uid, rows[..i])
    {
      var resourceScore := FirstScore(t, rows[i].id);
      var distance := FirstDistance(t, uid, rows[i].id);
      if resourceScore.Some? && distance.Some? {
        var weight := 1.0;
        if distance.value == 1 {
          weight := 0.75;
        } else if distance.value == 2 {
          weight := 0.5;
        }
        score := score + resourceScore.value * weight;
      }
      assert rows[..i + 1][..i] == rows[..i];
    }
    assert rows[..|rows|] == rows;
  }

  /** compute_user_score without its final save. */
  method UserScoreOf(store: GraphStore, uid: nat) returns (score: real)
    ensures score == UserScoreValue(store.Snapshot(), uid)
  {
    score := WeightedSumOf(store, uid, TopResources(store.Snapshot(), uid));
  }

  /** compute_user_score: appends a new UserScore row. */
  method ComputeUserScore(store: GraphStore, user: User)
    requires store.Valid() && user.uid < |store.users|
    modifies store`userScores
    ensures store.Valid()
    ensures store.userScores == old(store.userScores) + [UserScore(user.uid, UserScoreValue(old(store.Snapshot()), user.uid))]
  {
    var score := UserScoreOf(store, user.uid);
    store.SaveUserScore(user.uid, score);
  }

  // ---------------------------------------------------------------- get_best_results

  /** `User JOIN UserScore`: one row per score row of an existing user. */
  function ScoredUsers(t: Tables, scores: seq<UserScore>): (r: seq<Ranked>)
    ensures forall x :: x in r ==> x.id < |t.users|
    decreases |scores|
  {
    if scores == [] then []
    else
      var s := scores[|scores| - 1];
      ScoredUsers(t, scores[..|scores| - 1]) + if s.owner < |t.users| then [Ranked(s.owner, s.score)] else []
  }

  /** The join keeps every score row of a stored user, repeats included. */
  lemma {:induction false} ScoredUsersMultiplicity(t: Tables, scores: seq<UserScore>, x: Ranked)
    ensures multiset(ScoredUsers(t, scores))[x] == if x.id < |t.users| then multiset(scores)[UserScore(x.id, x.score)] else 0
    decreases |scores|
  {
    if scores != [] {
      var init := scores[..|scores| - 1];
      ScoredUsersMultiplicity(t, init, x);
      assert scores == init + [scores[|scores| - 1]];
    }
  }

  /** The ten best-scored users. */
  function TopUsers(t: Tables): seq<Ranked> {
    Take(SortDesc(ScoredUsers(t, t.userScores)), 10)
  }

  /** The rows of a join whose resource has a location (`location_name IS NOT NULL`). */
  function Located(t: Tables, rows: seq<Ranked>): (r: seq<Ranked>)
    requires forall x :: x in rows ==> x.id < |t.resources|
    ensures forall x :: x in r ==> x in rows && t.resources[x.id].locationName.Some?
    decreases |rows|
  {
    if rows == [] then []
    else
      var x := rows[|rows| - 1];
      Located(t, rows[..|rows| - 1]) + if t.resources[x.id].locationName.Some? then [x] else []
  }

  /** The filter keeps every row whose resource has a location, repeats included. */
  lemma {:induction false} LocatedMultiplicity(t: Tables, rows: seq<Ranked>, x: Ranked)
    requires forall y :: y in rows ==> y.id < |t.resources|
    ensures multiset(Located(t, rows))[x]
         == if x.id < |t.resources| && t.resources[x.id].locationName.Some? then multiset(rows)[x] else 0
    decreases |rows|
  {
    if rows != [] {
      var init := rows[..|rows| - 1];
      LocatedMultiplicity(t, init, x);
      assert rows == init + [rows[|rows| - 1]];
    }
  }

  /** The rows of the inner query: the user's joined rows whose resource has a
      location, best score first, at most two; no located row left out
      outscores a row kept. */
  function CandidateRows(t: Tables, uid: nat): (r: seq<Ranked>)
    ensures |r| <= 2 && SortedDesc(r)
    ensures multiset(r) <= multiset(Located(t, UserRows(t, t.resourceUsers, uid)))
    ensures forall x, y :: x in r && y in multiset(Located(t, UserRows(t, t.resourceUsers, uid))) - multiset(r)
              ==> y.score <= x.score
    ensures forall x :: x in r ==> x.id < |t.resources| && t.resources[x.id].locationName.Some?
  {
    var located := Located(t, UserRows(t, t.resourceUsers, uid));
    TopSpec(located, 2);
    TopMembers(located, 2);
    Take(SortDesc(located), 2)
  }

  /** The resources of the user's candidate rows, in the same order. */
  function Candidates(t: Tables, uid: nat): (r: seq<Resource>)
    ensures |r| == |CandidateRows(t, uid)| <= 2
    ensures forall i :: 0 <= i < |r| ==> r[i] == t.resources[CandidateRows(t, uid)[i].id]
    ensures forall c :: c in r ==> c in t.resources && c.locationName.Some?
  {
    var top := CandidateRows(t, uid);
    seq(|top|, i requires 0 <= i < |top| => t.resources[top[i].id])
  }

  /** A resource worth showing: its location is set and not blank. */
  predicate Presentable(r: Resource) {
    r.locationName.Some? && !ResourceUtil.Blank(r.locationName.value)
  }

  /** The results so far and the external ids already taken. */
  datatype Picked = Picked(best: seq<Resource>, unique: set<string>)

  /** The inner loop: append each presentable candidate whose external id is new. */
  function Admit(cands: seq<Resource>, p: Picked): Picked
    decreases |cands|
  {
    if cands == [] then p
    else
      var q := Admit(cands[..|cands| - 1], p);
      var r := cands[|cands| - 1];
      if r.externalId !in q.unique && Presentable(r) then Picked(q.best + [r], q.unique + {r.externalId}) else q
  }

  /** The outer loop: a user's candidates are considered only while fewer
      than 10 results have been gathered. */
  function Gather(t: Tables, users: seq<Ranked>): Picked
    decreases |users|
  {
    if users == [] then Picked([], {})
    else
      var p := Gather(t, users[..|users| - 1]);
      if |p.best| < 10 then Admit(Candidates(t, users[|users| - 1].id), p) else p
  }

  /** get_best_results */
  function BestResults(t: Tables): seq<Resource> {
    Gather(t, TopUsers(t)).best
  }

  /** The external ids of a list of results. */
  function IdsOf(best: seq<Resource>): set<string>
    decreases |best|
  {
    if best == [] then {} else IdsOf(best[..|best| - 1]) + {best[|best| - 1].externalId}
  }

  lemma {:induction false} IdsOfMembers(best: seq<Resource>)
    ensures forall i :: 0 <= i < |best| ==> best[i].externalId in IdsOf(best)
  {
    if best != [] {
      var init := best[..|best| - 1];
      IdsOfMembers(init);
      forall i | 0 <= i < |init|
        ensures best[i].externalId in IdsOf(best)
      {
        assert best[i] == init[i];
      }
    }
  }

  /** `unique` holds exactly the external ids of the results, which are
      distinct and presentable. */
  ghost predicate Consistent(p: Picked) {
    && p.unique == IdsOf(p.best)
    && (forall i, j :: 0 <= i < j < |p.best| ==> p.best[i].externalId != p.best[j].externalId)
    && (forall i :: 0 <= i < |p.best| ==> Presentable(p.best[i]))
  }

  /** Appending a presentable resource with a new external id keeps the picks consistent. */
  lemma AdmitOne(q: Picked, r: Resource)
    requires Consistent(q) && r.externalId !in q.unique && Presentable(r)
    ensures Consistent(Picked(q.best + [r], q.unique + {r.externalId}))
  {
    var best := q.best + [r];
    assert best[..|best| - 1] == q.best;
    IdsOfMembers(q.best);
    forall i, j | 0 <= i < j < |best|
      ensures best[i].externalId != best[j].externalId
    {
      assert best[i] == q.best[i];
      if j < |q.best| {
        assert best[j] == q.best[j];
      }
    }
  }

  /** The inner loop keeps the picks consistent. */
  lemma {:induction false} AdmitConsistent(cands: seq<Resource>, p: Picked)
    requires Consistent(p)
    ensures Consistent(Admit(cands, p))
  {
    if cands != [] {
      AdmitConsistent(cands[..|cands| - 1], p);
      var q := Admit(cands[..|cands| - 1], p);
      var r := cands[|cands| - 1];
      if r.externalId !in q.unique && Presentable(r) {
        AdmitOne(q, r);
      }
    }
  }

  /** The inner loop only appends, at most one result per candidate. */
  lemma {:induction false} AdmitGrows(cands: seq<Resource>, p: Picked)
    ensures |p.best| <= |Admit(cands, p).best| <= |p.best| + |cands|
    ensures Admit(cands, p).best[..|p.best|] == p.best
  {
    if cands != [] {
      AdmitGrows(cands[..|cands| - 1], p);
      var q := Admit(cands[..|cands| - 1], p);
      var r := cands[|cands| - 1];
      if r.externalId !in q.unique && Presentable(r) {
        assert (q.best + [r])[..|p.best|] == q.best[..|p.best|];
      }
    }
  }

  /** The inner loop appends candidates only. */
  lemma {:induction false} AdmitFrom(cands: seq<Resource>, p: Picked)
    ensures forall r :: r in Admit(cands, p).best ==> r in p.best || r in cands
  {
    if cands != [] {
      AdmitFrom(cands[..|cands| - 1], p);
    }
  }

  lemma {:induction false} GatherSpec(t: Tables, users: seq<Ranked>)
    ensures Consistent(Gather(t, users))
    ensures |Gather(t, users).best| <= 11
    ensures forall r :: r in Gather(t, users).best ==> r in t.resources
  {
    if users != [] {
      GatherSpec(t, users[..|users| - 1]);
      var p := Gather(t, users[..|users| - 1]);
      if |p.best| < 10 {
        AdmitConsistent(Candidates(t, users[|users| - 1].id), p);
        AdmitGrows(Candidates(t, users[|users| - 1].id), p);
        AdmitFrom(Candidates(t, users[|users| - 1].id), p);
      }
    }
  }

  /** `a` is `b` with some elements left out and the others kept in order. */
  predicate Subsequence<T(==)>(a: seq<T>, b: seq<T>)
    decreases |b|
  {
    && |a| <= |b|
    && (|| a == []
        || (a[|a| - 1] == b[|b| - 1] && Subsequence(a[..|a| - 1], b[..|b| - 1]))
        || Subsequence(a, b[..|b| - 1]))
  }

  /** Subsequences of two parts give a subsequence of their concatenation. */
  lemma {:induction false} SubsequenceConcat<T>(a: seq<T>, b: seq<T>, c: seq<T>, d: seq<T>)
    requires Subsequence(a, b) && Subsequence(c, d)
    ensures Subsequence(a + c, b + d)
    decreases |d|
  {
    if d == [] {
      assert a + c == a && b + d == b;
    } else {
      var d' := d[..|d| - 1];
      assert (b + d)[..|b + d| - 1] == b + d';
      if c != [] && c[|c| - 1] == d[|d| - 1] && Subsequence(c[..|c| - 1], d') {
        SubsequenceConcat(a, b, c[..|c| - 1], d');
        assert (a + c)[..|a + c| - 1] == a + c[..|c| - 1];
      } else if c == [] {
        assert Subsequence(c, d');
        SubsequenceConcat(a, b, c, d');
        assert a + c == a;
      } else {
        SubsequenceConcat(a, b, c, d');
      }
    }
  }

  /** The candidates of each user in turn: what the two loops iterate over. */
  function AllCandidates(t: Tables, users: seq<Ranked>): (r: seq<Resource>)
    ensures |r| <= 2 * |users|
    decreases |users|
  {
    if users == [] then [] else AllCandidates(t, users[..|users| - 1]) + Candidates(t, users[|users| - 1].id)
  }

  /** The inner loop appends a subsequence of the candidates. */
  lemma {:induction false} AdmitSubsequence(cands: seq<Resource>, p: Picked)
    ensures |p.best| <= |Admit(cands, p).best|
    ensures Subsequence(Admit(cands, p).best[|p.best|..], cands)
    decreases |cands|
  {
    AdmitGrows(cands, p);
    if cands != [] {
      var init := cands[..|cands| - 1];
      AdmitSubsequence(init, p);
      var q := Admit(init, p);
      var r := cands[|cands| - 1];
      if r.externalId !in q.unique && Presentable(r) {
        AdmitAppended(q.best[|p.best|..], q.best, p.best, r, init);
      }
    }
  }

  /** One admitted candidate extends the subsequence of the candidates. */
  lemma AdmitAppended(added: seq<Resource>, best: seq<Resource>, before: seq<Resource>, r: Resource,
                      init: seq<Resource>)
    requires |before| <= |best| && added == best[|before|..] && Subsequence(added, init)
    ensures Subsequence((best + [r])[|before|..], init + [r])
  {
    assert (best + [r])[|before|..] == added + [r];
    assert (added + [r])[..|added|] == added;
    assert (init + [r])[..|init|] == init;
  }

  /** The outer loop keeps a subsequence of the candidates of the users seen. */
  lemma {:induction false} GatherSubsequence(t: Tables, users: seq<Ranked>)
    ensures Subsequence(Gather(t, users).best, AllCandidates(t, users))
    decreases |users|
  {
    if users != [] {
      var init := users[..|users| - 1];
      var cands := Candidates(t, users[|users| - 1].id);
      GatherSubsequence(t, init);
      var p := Gather(t, init);
      if |p.best| < 10 {
        AdmitSubsequence(cands, p);
        AdmitGrows(cands, p);
        ExtendSubsequence(p.best, AllCandidates(t, init), Admit(cands, p).best, cands);
      } else {
        ExtendSubsequence(p.best, AllCandidates(t, init), p.best, cands);
      }
    }
  }

  /** Results that extend `before` by a subsequence of `cands` are a
      subsequence of the earlier candidates followed by `cands`. */
  lemma ExtendSubsequence<T>(before: seq<T>, earlier: seq<T>, after: seq<T>, cands: seq<T>)
    requires Subsequence(before, earlier)
    requires |before| <= |after| && after[..|before|] == before
    requires after == before || Subsequence(after[|before|..], cands)
    ensures Subsequence(after, earlier + cands)
  {
    assert after == before + after[|before|..];
    if after == before {
      assert after[|before|..] == [];
    }
    SubsequenceConcat(before, earlier, after[|before|..], cands);
  }

  /** The first candidate with external id `e` that the inner loop would
      accept (a non-blank location), if any. */
  function FirstPresentable(cands: seq<Resource>, e: string): (f: Option<Resource>)
    ensures f.Some? ==> f.value in cands && Presentable(f.value) && f.value.externalId == e
    ensures f.None? ==> forall c :: c in cands && Presentable(c) ==> c.externalId != e
    decreases |cands|
  {
    if cands == [] then None
    else
      var f := FirstPresentable(cands[..|cands| - 1], e);
      if f.Some? then f
      else
        var c := cands[|cands| - 1];
        if Presentable(c) && c.externalId == e then Some(c) else None
  }

  /** The candidate found is the acceptable one with id `e` at the lowest position. */
  lemma {:induction false} FirstPresentableIndex(cands: seq<Resource>, e: string, k: nat)
    requires k < |cands| && Presentable(cands[k]) && cands[k].externalId == e
    requires forall j :: 0 <= j < k ==> !(Presentable(cands[j]) && cands[j].externalId == e)
    ensures FirstPresentable(cands, e) == Some(cands[k])
    decreases |cands|
  {
    var init := cands[..|cands| - 1];
    if k < |init| {
      FirstPresentableIndex(init, e, k);
    }
  }

  /** Candidates seen later do not change the first one already found. */
  lemma {:induction false} FirstPresentableAppend(before: seq<Resource>, after: seq<Resource>, e: string)
    requires FirstPresentable(before, e).Some?
    ensures FirstPresentable(before + after, e) == FirstPresentable(before, e)
    decreases |after|
  {
    if after == [] {
      assert before + after == before;
    } else {
      var init := after[..|after| - 1];
      FirstPresentableAppend(before, init, e);
      assert (before + after)[..|before + after| - 1] == before + init;
    }
  }

  /** Every result is the first acceptable candidate seen with its external id,
      and every id taken belongs to such a candidate. */
  ghost predicate FirstOnly(seen: seq<Resource>, p: Picked) {
    && (forall i :: 0 <= i < |p.best| ==> FirstPresentable(seen, p.best[i].externalId) == Some(p.best[i]))
    && (forall e :: e in p.unique ==> FirstPresentable(seen, e).Some?)
  }

  /** Every acceptable candidate seen has its external id taken. */
  ghost predicate Covers(seen: seq<Resource>, p: Picked) {
    forall c :: c in seen && Presentable(c) ==> c.externalId in p.unique
  }

  lemma FirstOnlyAppend(before: seq<Resource>, after: seq<Resource>, p: Picked)
    requires FirstOnly(before, p)
    ensures FirstOnly(before + after, p)
  {
    forall i | 0 <= i < |p.best|
      ensures FirstPresentable(before + after, p.best[i].externalId) == Some(p.best[i])
    {
      FirstPresentableAppend(before, after, p.best[i].externalId);
    }
    forall e | e in p.unique
      ensures FirstPresentable(before + after, e).Some?
    {
      FirstPresentableAppend(before, after, e);
    }
  }

  /** The inner loop takes exactly the first acceptable candidate of each new
      external id: when every acceptable candidate seen before has its id
      taken, the results are still the first of their ids, and every
      acceptable candidate of the user has its id taken afterwards. */
  lemma {:induction false} AdmitFirst(before: seq<Resource>, cands: seq<Resource>, p: Picked)
    requires FirstOnly(before, p) && Covers(before, p)
    ensures FirstOnly(before + cands, Admit(cands, p)) && Covers(before + cands, Admit(cands, p))
    ensures p.unique <= Admit(cands, p).unique
    decreases |cands|
  {
    if cands == [] {
      assert before + cands == before;
    } else {
      var init := cands[..|cands| - 1];
      var r := cands[|cands| - 1];
      AdmitFirst(before, init, p);
      var q := Admit(init, p);
      var seen := before + init;
      assert before + cands == seen + [r];
      AdmitFirstStep(seen, q, r);
    }
  }

  /** One candidate of the inner loop. */
  lemma AdmitFirstStep(seen: seq<Resource>, q: Picked, r: Resource)
    requires FirstOnly(seen, q) && Covers(seen, q)
    ensures var q' := if r.externalId !in q.unique && Presentable(r) then Picked(q.best + [r], q.unique + {r.externalId}) else q;
      FirstOnly(seen + [r], q') && Covers(seen + [r], q') && q.unique <= q'.unique
  {
    var all := seen + [r];
    assert all[..|all| - 1] == seen;
    FirstOnlyAppend(seen, [r], q);
    if r.externalId !in q.unique && Presentable(r) {
      assert FirstPresentable(seen, r.externalId).None?;
      assert FirstPresentable(all, r.externalId) == Some(r);
      var best := q.best + [r];
      forall i | 0 <= i < |best|
        ensures FirstPresentable(all, best[i].externalId) == Some(best[i])
      {
        if i < |q.best| {
          assert best[i] == q.best[i];
        }
      }
    }
  }

  /** The inner loop takes the external id of every acceptable candidate of
      the user, and keeps those already taken. */
  lemma {:induction false} AdmitCovers(cands: seq<Resource>, p: Picked)
    ensures Covers(cands, Admit(cands, p)) && p.unique <= Admit(cands, p).unique
    decreases |cands|
  {
    if cands != [] {
      AdmitCovers(cands[..|cands| - 1], p);
    }
  }

  /** The outer loop: every result is the first acceptable candidate with its
      external id among the candidates of the users, in order; and while
      fewer than 10 results are held, every acceptable candidate seen has its
      external id taken. */
  lemma {:induction false} GatherFirst(t: Tables, users: seq<Ranked>)
    ensures FirstOnly(AllCandidates(t, users), Gather(t, users))
    ensures |Gather(t, users).best| < 10 ==> Covers(AllCandidates(t, users), Gather(t, users))
    decreases |users|
  {
    if users != [] {
      var init := users[..|users| - 1];
      var cands := Candidates(t, users[|users| - 1].id);
      GatherFirst(t, init);
      var p := Gather(t, init);
      if |p.best| < 10 {
        AdmitFirst(AllCandidates(t, init), cands, p);
      } else {
        FirstOnlyAppend(AllCandidates(t, init), cands, p);
      }
    }
  }

  /** The candidates the inner loop runs over, one list per user. */
  function CandLists(t: Tables, users: seq<Ranked>): (r: seq<seq<Resource>>)
    ensures |r| == |users|
    decreases |users|
  {
    if users == [] then [] else CandLists(t, users[..|users| - 1]) + [Candidates(t, users[|users| - 1].id)]
  }

  /** The list for user `i` is that user's candidates. */
  lemma {:induction false} CandListsAt(t: Tables, users: seq<Ranked>, i: nat)
    requires i < |users|
    ensures CandLists(t, users)[i] == Candidates(t, users[i].id)
    decreases |users|
  {
    var init := users[..|users| - 1];
    var last := Candidates(t, users[|users| - 1].id);
    assert CandLists(t, users) == CandLists(t, init) + [last];
    if i < |init| {
      CandListsAt(t, init, i);
      assert users[i] == init[i];
      assert (CandLists(t, init) + [last])[i] == CandLists(t, init)[i];
    } else {
      assert i == |users| - 1;
      assert (CandLists(t, init) + [last])[i] == last;
    }
  }

  /** How many results the outer loop holds when it reaches each user. */
  function Held(t: Tables, users: seq<Ranked>): (r: seq<nat>)
    ensures |r| == |users|
    decreases |users|
  {
    if users == [] then [] else Held(t, users[..|users| - 1]) + [|Gather(t, users[..|users| - 1]).best|]
  }

  /** The count for user `i` is the length of the results gathered from the
      users before it, which the length test of answerquery.py:125 reads. */
  lemma {:induction false} HeldAt(t: Tables, users: seq<Ranked>, i: nat)
    requires i < |users|
    ensures Held(t, users)[i] == |Gather(t, users[..i]).best|
    decreases |users|
  {
    var init := users[..|users| - 1];
    var held := Held(t, init);
    var last := |Gather(t, init).best|;
    assert Held(t, users) == held + [last];
    if i < |init| {
      HeldAt(t, init, i);
      assert users[..i] == init[..i];
      SnocIndex(held, last, i, |Gather(t, users[..i]).best|);
    } else {
      assert users[..i] == init;
      SnocIndex(held, last, i, last);
    }
  }

  lemma SnocIndex<T>(xs: seq<T>, x: T, i: nat, v: T)
    requires (i < |xs| && xs[i] == v) || (i == |xs| && x == v)
    ensures (xs + [x])[i] == v
  {
  }

  /** Every acceptable candidate in a list the outer loop reached while fewer
      than 10 results were held has its external id in `unique`. */
  ghost predicate Reached(lists: seq<seq<Resource>>, held: seq<nat>, unique: set<string>)
    requires |lists| == |held|
  {
    forall i, c :: 0 <= i < |lists| && held[i] < 10 && c in lists[i] && Presentable(c) ==> c.externalId in unique
  }

  /** The outer loop reaches every user it considers while fewer than 10
      results are held, and keeps the external ids it has taken. */
  lemma {:induction false} GatherReached(t: Tables, users: seq<Ranked>)
    ensures Reached(CandLists(t, users), Held(t, users), Gather(t, users).unique)
    decreases |users|
  {
    if users != [] {
      var init := users[..|users| - 1];
      var cands := Candidates(t, users[|users| - 1].id);
      GatherReached(t, init);
      var p := Gather(t, init);
      if |p.best| < 10 {
        AdmitCovers(cands, p);
      }
      ReachedSnoc(CandLists(t, init), Held(t, init), p.unique, cands, |p.best|, Gather(t, users).unique);
    }
  }

  /** One user of the outer loop. */
  lemma ReachedSnoc(lists: seq<seq<Resource>>, held: seq<nat>, unique: set<string>,
                    cands: seq<Resource>, h: nat, unique': set<string>)
    requires |lists| == |held| && Reached(lists, held, unique) && unique <= unique'
    requires h < 10 ==> forall c :: c in cands && Presentable(c) ==> c.externalId in unique'
    ensures Reached(lists + [cands], held + [h], unique')
  {
    forall i, c | 0 <= i < |lists| + 1 && (held + [h])[i] < 10 && c in (lists + [cands])[i] && Presentable(c)
      ensures c.externalId in unique'
    {
      if i < |lists| {
        assert (held + [h])[i] == held[i] && (lists + [cands])[i] == lists[i];
      }
    }
  }

  /** What get_best_results includes: each result is the first acceptable
      candidate with its external id, in the order the loops visit them; every
      acceptable candidate of a user reached while fewer than 10 results were
      held has a result with its external id; and when fewer than 10 results
      come back, that holds for every acceptable candidate. */
  lemma BestResultsIncludes(t: Tables)
    ensures forall i :: 0 <= i < |BestResults(t)| ==>
      FirstPresentable(AllCandidates(t, TopUsers(t)), BestResults(t)[i].externalId) == Some(BestResults(t)[i])
    ensures forall i, c :: 0 <= i < |TopUsers(t)| && |Gather(t, TopUsers(t)[..i]).best| < 10
              && c in Candidates(t, TopUsers(t)[i].id) && Presentable(c)
              ==> c.externalId in IdsOf(BestResults(t))
    ensures |BestResults(t)| < 10 ==>
      forall c :: c in AllCandidates(t, TopUsers(t)) && Presentable(c) ==> c.externalId in IdsOf(BestResults(t))
  {
    var users := TopUsers(t);
    GatherSpec(t, users);
    GatherFirst(t, users);
    GatherReached(t, users);
    forall i, c | 0 <= i < |users| && |Gather(t, users[..i]).best| < 10 && c in Candidates(t, users[i].id) && Presentable(c)
      ensures c.externalId in IdsOf(BestResults(t))
    {
      HeldAt(t, users, i);
      CandListsAt(t, users, i);
    }
  }

  /** What get_best_results keeps out and in which order: no two resources
      with the same external id, none without a non-blank location, stored
      resources only and, since the length check gates whole users, at most
      11 of them. The results keep the order of the loops: users by
      decreasing score, at most ten of them, and for each at most its two
      best-scored located resources, by decreasing score. */
  lemma BestResultsShape(t: Tables)
    ensures var r := BestResults(t);
      && |r| <= 11
      && (forall i, j :: 0 <= i < j < |r| ==> r[i].externalId != r[j].externalId)
      && (forall i :: 0 <= i < |r| ==> Presentable(r[i]))
      && (forall i :: 0 <= i < |r| ==> r[i] in t.resources)
    ensures |TopUsers(t)| <= 10 && SortedDesc(TopUsers(t))
    ensures Subsequence(BestResults(t), AllCandidates(t, TopUsers(t)))
  {
    GatherSpec(t, TopUsers(t));
    GatherSubsequence(t, TopUsers(t));
    TopSpec(ScoredUsers(t, t.userScores), 10);
  }

  /** get_best_results in full: what it keeps out and in which order, and
      what it includes. */
  lemma BestResultsSpec(t: Tables)
    ensures var r := BestResults(t);
      && |r| <= 11
      && (forall i, j :: 0 <= i < j < |r| ==> r[i].externalId != r[j].externalId)
      && (forall i :: 0 <= i < |r| ==> Presentable(r[i]))
      && (forall i :: 0 <= i < |r| ==> r[i] in t.resources)
    ensures |TopUsers(t)| <= 10 && SortedDesc(TopUsers(t))
    ensures Subsequence(BestResults(t), AllCandidates(t, TopUsers(t)))
    ensures forall i :: 0 <= i < |BestResults(t)| ==>
      FirstPresentable(AllCandidates(t, TopUsers(t)), BestResults(t)[i].externalId) == Some(BestResults(t)[i])
    ensures forall i, c :: 0 <= i < |TopUsers(t)| && |Gather(t, TopUsers(t)[..i]).best| < 10
              && c in Candidates(t, TopUsers(t)[i].id) && Presentable(c)
              ==> c.externalId in IdsOf(BestResults(t))
    ensures |BestResults(t)| < 10 ==>
      forall c :: c in AllCandidates(t, TopUsers(t)) && Presentable(c) ==> c.externalId in IdsOf(BestResults(t))
  {
    BestResultsShape(t);
    BestResultsIncludes(t);
  }

  /** The inner loop of get_best_results over one user's candidates. */
  method AdmitAll(cands: seq<Resource>, best0: seq<Resource>, unique0: set<string>)
    returns (best: seq<Resource>, unique: set<string>)
    ensures Picked(best, unique) == Admit(cands, Picked(best0, unique0))
  {
    best, unique := best0, unique0;
    assert cands[..0] == [];
    for j := 0 to |cands|
      invariant Picked(best, unique) == Admit(cands[..j], Picked(best0, unique0))
    {
      var r := cands[j];
      if r.externalId !in unique && r.locationName.Some? && !ResourceUtil.Blank(r.locationName.value) {
        best := best + [r];
        unique := unique + {r.externalId};
      }
      assert cands[..j + 1][..j] == cands[..j];
    }
    assert cands[..|cands|] == cands;
  }

  /** One more user of the outer loop. */
  lemma GatherNext(t: Tables, users: seq<Ranked>, i: nat)
    requires i < |users|
    ensures var p := Gather(t, users[..i]);
      Gather(t, users[..i + 1]) == if |p.best| < 10 then Admit(Candidates(t, users[i].id), p) else p
  {
    assert users[..i + 1][..i] == users[..i];
  }

  /** get_best_results: the outer loop over the best users and the inner loop
      over each one's best located resources. */
  method GetBestResults(store: GraphStore) returns (best: seq<Resource>)
    ensures best == BestResults(store.Snapshot())
  {
    var t := store.Snapshot();
    var users := TopUsers(t);
    var unique: set<string> := {};
    best := [];
    for i := 0 to |users|
      invariant Picked(best, unique) == Gather(t, users[..i])
    {
      GatherNext(t, users, i);
      if |best| < 10 {
        var cands := Candidates(t, users[i].id);
        best, unique := AdmitAll(cands, best, unique);
      }
    }
    assert users[..|users|] == users;
  }
}
