/** The project-relationship graph: links derived from shared technologies,
    the link distance handed to the layout, the nodes the drag handlers pin
    and release, and the selected project shown in the detail modal. */
module ProjectGraph {
  import opened Filtering
  import opened ProjectData

  // ---------------------------------------------------------------------
  // Shared technologies
  // ---------------------------------------------------------------------

  /** The test `t => b.includes(t)`. */
  function Includes(b: seq<string>): string -> bool
  {
    t => t in b
  }

  /** The entries of `a` that also occur in `b`, kept in `a`'s order
      (`a.filter(t => b.includes(t))`). */
  function SharedTech(a: seq<string>, b: seq<string>): (r: seq<string>)
    ensures |r| <= |a|
    ensures forall k :: 0 <= k < |r| ==> r[k] in a && r[k] in b
  {
    var r := Filter(Includes(b), a);
    assert forall k :: 0 <= k < |r| ==> r[k] in a && r[k] in b by {
      forall k | 0 <= k < |r| ensures r[k] in a && r[k] in b {
        FilterMembers(Includes(b), a, r[k]);
      }
    }
    r
  }

  /** The shared list holds exactly the technologies in both lists, each as
      often as it occurs in `a`, and is no longer than `a`. */
  lemma SharedTechSpec(a: seq<string>, b: seq<string>)
    ensures |SharedTech(a, b)| <= |a|
    ensures forall t :: t in SharedTech(a, b) <==> t in a && t in b
    ensures forall t :: multiset(SharedTech(a, b))[t] == if t in b then multiset(a)[t] else 0
  {
    forall t ensures t in SharedTech(a, b) <==> t in a && t in b {
      FilterMembers(Includes(b), a, t);
    }
    FilterMultiset(Includes(b), a);
  }

  /** A four-entry list is filtered entry by entry. */
  lemma SharedTechOfFour(a: seq<string>, b: seq<string>)
    requires |a| == 4
    ensures SharedTech(a, b)
      == (if a[0] in b then [a[0]] else []) + (if a[1] in b then [a[1]] else [])
       + (if a[2] in b then [a[2]] else []) + (if a[3] in b then [a[3]] else [])
  {
    var f := Includes(b);
    assert [] + [a[0]] == a[..1];
    FilterSnoc(f, [], a[0]);
    assert a[..1] + [a[1]] == a[..2];
    FilterSnoc(f, a[..1], a[1]);
    assert a[..2] + [a[2]] == a[..3];
    FilterSnoc(f, a[..2], a[2]);
    assert a[..3] + [a[3]] == a;
    FilterSnoc(f, a[..3], a[3]);
  }

  /** Two technology lists have an entry in common. */
  ghost predicate Overlap(a: seq<string>, b: seq<string>)
  {
    exists t :: t in a && t in b
  }

  /** The shared list is non-empty exactly when the two lists overlap. */
  lemma SharedIffOverlap(a: seq<string>, b: seq<string>)
    ensures SharedTech(a, b) != [] <==> Overlap(a, b)
  {
    SharedTechSpec(a, b);
    var r := SharedTech(a, b);
    if r != [] {
      assert r[0] in r;
    }
  }

  /** When the first list has no repeats, neither has the shared list, so a
      link's strength is the number of distinct technologies the two
      projects share. */
  lemma SharedTechDistinct(a: seq<string>, b: seq<string>)
    requires NoDuplicates(a)
    ensures NoDuplicates(SharedTech(a, b))
    ensures |SharedTech(a, b)| == |set t | t in a && t in b|
  {
    var r := SharedTech(a, b);
    SharedTechSpec(a, b);
    FilterDistinct(Includes(b), a);
    DistinctCard(r);
    assert (set t | t in r) == (set t | t in a && t in b);
  }

  // ---------------------------------------------------------------------
  // Candidate pairs
  // ---------------------------------------------------------------------

  /** An index pair into the project list: `row` is the outer loop's index,
      `col` the inner loop's. */
  datatype Pair = Pair(row: nat, col: nat)

  /** The pairs `(i, k)` with `i < k < j`, in increasing `k`: what one pass
      of the inner loop visits. */
  function RowOf(i: nat, j: nat): (r: seq<Pair>)
    requires i < j
    ensures |r| == j - i - 1
    decreases j
  {
    if j == i + 1 then [] else RowOf(i, j - 1) + [Pair(i, j - 1)]
  }

  /** The pairs visited by the first `i` passes of the outer loop over `n`
      projects. */
  function PairsBefore(n: nat, i: nat): (r: seq<Pair>)
    requires i <= n
    ensures |r| == PairsBelow(n, i)
  {
    if i == 0 then [] else PairsBefore(n, i - 1) + RowOf(i - 1, n)
  }

  /** Every pair the two loops compare, in visiting order. */
  function AllPairs(n: nat): seq<Pair>
  {
    PairsBefore(n, n)
  }

  /** The number of index pairs `(r, c)` with `r < i` and `r < c < n`. */
  function PairsBelow(n: nat, i: nat): nat
    requires i <= n
  {
    if i == 0 then 0 else PairsBelow(n, i - 1) + (n - i)
  }

  lemma {:induction false} PairsBelowClosedForm(n: nat, i: nat)
    requires i <= n
    ensures 2 * PairsBelow(n, i) == i * (2 * n - i - 1)
  {
    if i > 0 {
      PairsBelowClosedForm(n, i - 1);
      var m, k := i - 1, 2 * n - i - 1;
      MulSucc(i, m, k);
      MulSucc(k + 1, k, m);
      assert m * (k + 1) == (k + 1) * m && m * k == k * m;
    }
  }

  lemma MulSucc(a: int, b: int, c: int)
    requires a == b + 1
    ensures a * c == b * c + c
  {
  }

  lemma {:induction false} RowOfIff(i: nat, j: nat, q: Pair)
    requires i < j
    ensures q in RowOf(i, j) <==> q.row == i && i < q.col < j
    decreases j
  {
    if j > i + 1 {
      RowOfIff(i, j - 1, q);
    }
  }

  /** The visited pairs are exactly those `(r, c)` with `r < i` and
      `r < c < n`. */
  lemma {:induction false} PairsBeforeIff(n: nat, i: nat, q: Pair)
    requires i <= n
    ensures q in PairsBefore(n, i) <==> q.row < i && q.row < q.col < n
  {
    if i > 0 {
      var a, b := PairsBefore(n, i - 1), RowOf(i - 1, n);
      assert PairsBefore(n, i) == a + b;
      assert q in a + b <==> q in a || q in b;
      PairsBeforeIff(n, i - 1, q);
      RowOfIff(i - 1, n, q);
    }
  }

  /** Lexicographic order on index pairs. */
  predicate Before(p: Pair, q: Pair)
  {
    p.row < q.row || (p.row == q.row && p.col < q.col)
  }

  predicate InLexOrder(r: seq<Pair>)
  {
    forall k, l :: 0 <= k < l < |r| ==> Before(r[k], r[l])
  }

  lemma AppendInOrder(a: seq<Pair>, b: seq<Pair>)
    requires InLexOrder(a) && InLexOrder(b)
    requires forall x, y :: x in a && y in b ==> Before(x, y)
    ensures InLexOrder(a + b)
  {
    forall k, l | 0 <= k < l < |a + b| ensures Before((a + b)[k], (a + b)[l]) {
      if l < |a| {
        assert (a + b)[k] == a[k] && (a + b)[l] == a[l];
      } else if k < |a| {
        assert (a + b)[k] == a[k] && (a + b)[l] == b[l - |a|];
      } else {
        assert (a + b)[k] == b[k - |a|] && (a + b)[l] == b[l - |a|];
      }
    }
  }

  lemma {:induction false} RowOfInOrder(i: nat, j: nat)
    requires i < j
    ensures InLexOrder(RowOf(i, j))
    decreases j
  {
    if j > i + 1 {
      var r := RowOf(i, j - 1);
      RowOfInOrder(i, j - 1);
      forall x | x in r ensures Before(x, Pair(i, j - 1)) {
        RowOfIff(i, j - 1, x);
      }
      AppendInOrder(r, [Pair(i, j - 1)]);
    }
  }

  /** The loops visit pairs in lexicographic order. */
  lemma {:induction false} PairsBeforeInOrder(n: nat, i: nat)
    requires i <= n
    ensures InLexOrder(PairsBefore(n, i))
  {
    if i > 0 {
      var a, b := PairsBefore(n, i - 1), RowOf(i - 1, n);
      PairsBeforeInOrder(n, i - 1);
      RowOfInOrder(i - 1, n);
      forall x, y | x in a && y in b ensures Before(x, y) {
        PairsBeforeIff(n, i - 1, x);
        RowOfIff(i - 1, n, y);
      }
      AppendInOrder(a, b);
    }
  }

  /** Dropping pairs keeps the remaining ones in order. */
  lemma {:induction false} FilterInOrder(f: Pair -> bool, s: seq<Pair>)
    requires InLexOrder(s)
    ensures InLexOrder(Filter(f, s))
  {
    if s != [] {
      var init, last := s[..|s| - 1], s[|s| - 1];
      assert s == init + [last];
      assert InLexOrder(init) by {
        forall k, l | 0 <= k < l < |init| ensures Before(init[k], init[l]) {
          assert init[k] == s[k] && init[l] == s[l];
        }
      }
      FilterInOrder(f, init);
      FilterSnoc(f, init, last);
      var kept, tail := Filter(f, init), if f(last) then [last] else [];
      forall x, y | x in kept && y in tail ensures Before(x, y) {
        FilterMembers(f, init, x);
        var k :| 0 <= k < |init| && init[k] == x;
        assert s[k] == x;
      }
      AppendInOrder(kept, tail);
    }
  }

  lemma InLexOrderDistinct(r: seq<Pair>)
    requires InLexOrder(r)
    ensures NoDuplicates(r)
  {
  }

  // ---------------------------------------------------------------------
  // Links
  // ---------------------------------------------------------------------

  /** A derived link between two projects. */
  datatype LinkData = LinkData(source: Project, target: Project, strength: nat, sharedTech: seq<string>)

  /** The inner loop's test: projects `i < j` have a non-empty shared list. */
  predicate Linked(ps: seq<Project>, i: nat, j: nat)
  {
    i < j < |ps| && SharedTech(ps[i].tech, ps[j].tech) != []
  }

  function LinkedPair(ps: seq<Project>): Pair -> bool
  {
    (p: Pair) => Linked(ps, p.row, p.col)
  }

  /** The pairs of `s` that get a link, in the order of `s`. */
  function LinkedAmong(ps: seq<Project>, s: seq<Pair>): (r: seq<Pair>)
    ensures forall p :: p in r ==> p in s && p.row < p.col < |ps|
  {
    var r := Filter(LinkedPair(ps), s);
    assert forall p :: p in r ==> p in s && p.row < p.col < |ps| by {
      forall p | p in r ensures p in s && p.row < p.col < |ps| {
        FilterMembers(LinkedPair(ps), s, p);
      }
    }
    r
  }

  /** A pair is kept exactly when its projects get a link. */
  lemma LinkedAmongIff(ps: seq<Project>, s: seq<Pair>, p: Pair)
    ensures p in LinkedAmong(ps, s) <==> p in s && Linked(ps, p.row, p.col)
  {
    FilterMembers(LinkedPair(ps), s, p);
  }

  /** The index pairs of all links, in emission order. */
  function EmittedPairs(ps: seq<Project>): seq<Pair>
  {
    LinkedAmong(ps, AllPairs(|ps|))
  }

  /** The link record pushed for projects `p.row` and `p.col`. */
  function LinkOf(ps: seq<Project>, p: Pair): LinkData
    requires p.row < |ps| && p.col < |ps|
  {
    var shared := SharedTech(ps[p.row].tech, ps[p.col].tech);
    LinkData(ps[p.row], ps[p.col], |shared|, shared)
  }

  /** The link records for `pairs`, in order. */
  function LinksOf(ps: seq<Project>, pairs: seq<Pair>): (r: seq<LinkData>)
    requires forall p :: p in pairs ==> p.row < |ps| && p.col < |ps|
    ensures |r| == |pairs|
  {
    seq(|pairs|, k requires 0 <= k < |pairs| => LinkOf(ps, pairs[k]))
  }

  lemma LinksOfSnoc(ps: seq<Project>, pairs: seq<Pair>, p: Pair)
    requires forall q :: q in pairs ==> q.row < |ps| && q.col < |ps|
    requires p.row < |ps| && p.col < |ps|
    ensures LinksOf(ps, pairs + [p]) == LinksOf(ps, pairs) + [LinkOf(ps, p)]
  {
  }

  /** What `getLinks` returns for `ps`: one link per pair `i < j` whose
      projects share a technology, in loop order. */
  function Links(ps: seq<Project>): (r: seq<LinkData>)
    ensures |r| == |EmittedPairs(ps)|
  {
    LinksOf(ps, EmittedPairs(ps))
  }

  /** Membership: `(i, j)` is emitted iff `i < j` and some technology of
      project `i` also occurs in project `j`'s list. No pair is `(i, i)`. */
  lemma EmittedPairsIff(ps: seq<Project>, i: nat, j: nat)
    ensures Pair(i, j) in EmittedPairs(ps) <==> i < j < |ps| && exists t :: t in ps[i].tech && t in ps[j].tech
  {
    PairsBeforeIff(|ps|, |ps|, Pair(i, j));
    LinkedAmongIff(ps, AllPairs(|ps|), Pair(i, j));
    if i < j < |ps| {
      SharedIffOverlap(ps[i].tech, ps[j].tech);
    }
  }

  /** Links come out in lexicographic `(i, j)` order, so no pair is emitted
      twice. */
  lemma EmittedPairsInOrder(ps: seq<Project>)
    ensures InLexOrder(EmittedPairs(ps))
    ensures NoDuplicates(EmittedPairs(ps))
  {
    PairsBeforeInOrder(|ps|, |ps|);
    FilterInOrder(LinkedPair(ps), AllPairs(|ps|));
    InLexOrderDistinct(EmittedPairs(ps));
  }

  /** At most n(n-1)/2 links; none for zero or one project. */
  lemma LinkCount(ps: seq<Project>)
    ensures 2 * |Links(ps)| <= |ps| * (|ps| - 1)
    ensures |ps| <= 1 ==> Links(ps) == []
  {
    PairsBelowClosedForm(|ps|, |ps|);
  }

  /** Projects `i` and `j` are related: `i` comes first and they have a
      technology in common. */
  ghost predicate Related(ps: seq<Project>, i: nat, j: nat)
  {
    i < j < |ps| && Overlap(ps[i].tech, ps[j].tech)
  }

  /** Every link joins projects `i < j` that share a technology; its shared
      list is `i`'s list filtered by `j`'s, each entry in both lists, and its
      strength is the length of that list, at least 1. */
  lemma LinkShape(ps: seq<Project>, k: nat)
    requires k < |Links(ps)|
    ensures exists i: nat, j: nat ::
              && i < j < |ps| && Related(ps, i, j)
              && Links(ps)[k].source == ps[i] && Links(ps)[k].target == ps[j]
              && Links(ps)[k].sharedTech == SharedTech(ps[i].tech, ps[j].tech)
    ensures Links(ps)[k].strength == |Links(ps)[k].sharedTech| >= 1
    ensures forall t :: t in Links(ps)[k].sharedTech <==>
      t in Links(ps)[k].source.tech && t in Links(ps)[k].target.tech
  {
    var p := EmittedPairs(ps)[k];
    assert p in EmittedPairs(ps);
    LinkedAmongIff(ps, AllPairs(|ps|), p);
    SharedIffOverlap(ps[p.row].tech, ps[p.col].tech);
    SharedTechSpec(ps[p.row].tech, ps[p.col].tech);
    assert Links(ps)[k] == LinkOf(ps, p);
  }

  /** When no project lists a technology twice, a link's strength is the
      number of distinct technologies its two projects share. */
  lemma LinkStrengthCountsShared(ps: seq<Project>, k: nat)
    requires k < |Links(ps)|
    requires forall m :: 0 <= m < |ps| ==> NoDuplicates(ps[m].tech)
    ensures Links(ps)[k].strength
      == |set t | t in Links(ps)[k].source.tech && t in Links(ps)[k].target.tech|
  {
    var p := EmittedPairs(ps)[k];
    assert p in EmittedPairs(ps);
    LinkedAmongIff(ps, AllPairs(|ps|), p);
    assert Links(ps)[k] == LinkOf(ps, p);
    SharedTechDistinct(ps[p.row].tech, ps[p.col].tech);
  }

  /** Every related pair does get its link. */
  lemma LinkEmitted(ps: seq<Project>, i: nat, j: nat)
    requires i < j < |ps|
    requires exists t :: t in ps[i].tech && t in ps[j].tech
    ensures exists k :: 0 <= k < |Links(ps)| && Links(ps)[k] == LinkOf(ps, Pair(i, j))
  {
    EmittedPairsIff(ps, i, j);
    var pairs := EmittedPairs(ps);
    var k :| 0 <= k < |pairs| && pairs[k] == Pair(i, j);
    assert Links(ps)[k] == LinkOf(ps, Pair(i, j));
  }

  /** With distinct ids, no link joins a project to itself. */
  lemma NoSelfLinks(ps: seq<Project>)
    requires UniqueIds(ps)
    ensures forall l :: l in Links(ps) ==> l.source.id != l.target.id
  {
    forall l | l in Links(ps) ensures l.source.id != l.target.id {
      var k :| 0 <= k < |Links(ps)| && Links(ps)[k] == l;
      var p := EmittedPairs(ps)[k];
      assert p in EmittedPairs(ps);
      assert l.source == ps[p.row] && l.target == ps[p.col];
    }
  }

  /** Two links join the same unordered pair of projects. */
  predicate SamePair(a: LinkData, b: LinkData)
  {
    || (a.source.id == b.source.id && a.target.id == b.target.id)
    || (a.source.id == b.target.id && a.target.id == b.source.id)
  }

  /** With distinct ids, each unordered pair of projects is linked at most
      once. */
  lemma NoDuplicatePairs(ps: seq<Project>)
    requires UniqueIds(ps)
    ensures forall k, l :: 0 <= k < l < |Links(ps)| ==> !SamePair(Links(ps)[k], Links(ps)[l])
  {
    EmittedPairsInOrder(ps);
    var pairs := EmittedPairs(ps);
    forall k, l | 0 <= k < l < |Links(ps)| ensures !SamePair(Links(ps)[k], Links(ps)[l]) {
      var p, q := pairs[k], pairs[l];
      assert p in pairs && q in pairs;
      assert Before(p, q);
      assert Links(ps)[k].source == ps[p.row] && Links(ps)[k].target == ps[p.col];
      assert Links(ps)[l].source == ps[q.row] && Links(ps)[l].target == ps[q.col];
    }
  }

  // ---------------------------------------------------------------------
  // The loops of getLinks
  // ---------------------------------------------------------------------

  /** The pairs the two loops over `n` projects have kept by the test
      `keep` when the inner loop is about to compare `i` with `j`. */
  function KeptBefore(keep: Pair -> bool, n: nat, i: nat, j: nat): seq<Pair>
    requires i < j <= n
    decreases i, j
  {
    if j == i + 1 then KeptInRows(keep, n, i)
    else KeptBefore(keep, n, i, j - 1) + (if keep(Pair(i, j - 1)) then [Pair(i, j - 1)] else [])
  }

  /** The pairs kept by the first `i` passes of the outer loop. */
  function KeptInRows(keep: Pair -> bool, n: nat, i: nat): seq<Pair>
    requires i <= n
    decreases i, 0
  {
    if i == 0 then [] else KeptBefore(keep, n, i - 1, n)
  }

  /** The loops keep, in visiting order, exactly the visited pairs that pass
      the test. */
  lemma {:induction false} KeptBeforeIsFilter(keep: Pair -> bool, n: nat, i: nat, j: nat)
    requires i < j <= n
    ensures KeptBefore(keep, n, i, j) == Filter(keep, PairsBefore(n, i) + RowOf(i, j))
    decreases i, j
  {
    if j == i + 1 {
      assert PairsBefore(n, i) + RowOf(i, j) == PairsBefore(n, i);
      KeptInRowsIsFilter(keep, n, i);
    } else {
      KeptBeforeIsFilter(keep, n, i, j - 1);
      KeptBeforeStep(keep, n, i, j);
    }
  }

  /** One step of the inner loop keeps the correspondence with the filter. */
  lemma KeptBeforeStep(keep: Pair -> bool, n: nat, i: nat, j: nat)
    requires i + 1 < j <= n
    requires KeptBefore(keep, n, i, j - 1) == Filter(keep, PairsBefore(n, i) + RowOf(i, j - 1))
    ensures KeptBefore(keep, n, i, j) == Filter(keep, PairsBefore(n, i) + RowOf(i, j))
  {
    var visited, p := PairsBefore(n, i) + RowOf(i, j - 1), Pair(i, j - 1);
    assert PairsBefore(n, i) + RowOf(i, j) == visited + [p];
    FilterSnoc(keep, visited, p);
  }

  lemma {:induction false} KeptInRowsIsFilter(keep: Pair -> bool, n: nat, i: nat)
    requires i <= n
    ensures KeptInRows(keep, n, i) == Filter(keep, PairsBefore(n, i))
    decreases i, 0
  {
    if i > 0 {
      KeptBeforeIsFilter(keep, n, i - 1, n);
    }
  }

  /** The pairs `(p, q)` of `pairs` all index into `ps`. */
  ghost predicate InRange(ps: seq<Project>, pairs: seq<Pair>)
  {
    forall p :: p in pairs ==> p.row < |ps| && p.col < |ps|
  }

  /** One comparison of the inner loop: the pair `(i, j)` is kept exactly
      when the shared list is non-empty, and its link is appended. */
  lemma CompareStep(ps: seq<Project>, i: nat, j: nat, emitted: seq<Pair>)
    requires i < j < |ps|
    requires emitted == KeptBefore(LinkedPair(ps), |ps|, i, j) && InRange(ps, emitted)
    ensures var shared := SharedTech(ps[i].tech, ps[j].tech);
      var next := emitted + if shared != [] then [Pair(i, j)] else [];
      && next == KeptBefore(LinkedPair(ps), |ps|, i, j + 1)
      && InRange(ps, next)
      && LinksOf(ps, next)
         == LinksOf(ps, emitted) + if shared != [] then [LinkData(ps[i], ps[j], |shared|, shared)] else []
  {
    if Linked(ps, i, j) {
      LinksOfSnoc(ps, emitted, Pair(i, j));
    }
  }

  /** The links pushed by the time the inner loop is about to compare `i`
      with `j`, built the way the loops build them. */
  function PushedUpTo(ps: seq<Project>, i: nat, j: nat): seq<LinkData>
    requires i < j <= |ps|
    decreases i, j
  {
    if j == i + 1 then PushedRows(ps, i)
    else
      var shared := SharedTech(ps[i].tech, ps[j - 1].tech);
      PushedUpTo(ps, i, j - 1) + if shared != [] then [LinkData(ps[i], ps[j - 1], |shared|, shared)] else []
  }

  /** The links pushed by the first `i` passes of the outer loop. */
  function PushedRows(ps: seq<Project>, i: nat): seq<LinkData>
    requires i <= |ps|
    decreases i, 0
  {
    if i == 0 then [] else PushedUpTo(ps, i - 1, |ps|)
  }

  /** The pushed links are the links of the kept pairs. */
  lemma {:induction false} PushedUpToSpec(ps: seq<Project>, i: nat, j: nat)
    requires i < j <= |ps|
    ensures InRange(ps, KeptBefore(LinkedPair(ps), |ps|, i, j))
    ensures PushedUpTo(ps, i, j) == LinksOf(ps, KeptBefore(LinkedPair(ps), |ps|, i, j))
    decreases i, j
  {
    if j == i + 1 {
      PushedRowsSpec(ps, i);
      PushedFirst(ps, i);
    } else {
      PushedUpToSpec(ps, i, j - 1);
      PushedStep(ps, i, j);
    }
  }

  /** Pass `i` starts from the links of the earlier passes. */
  lemma PushedFirst(ps: seq<Project>, i: nat)
    requires i < |ps|
    requires InRange(ps, KeptInRows(LinkedPair(ps), |ps|, i))
    requires PushedRows(ps, i) == LinksOf(ps, KeptInRows(LinkedPair(ps), |ps|, i))
    ensures InRange(ps, KeptBefore(LinkedPair(ps), |ps|, i, i + 1))
    ensures PushedUpTo(ps, i, i + 1) == LinksOf(ps, KeptBefore(LinkedPair(ps), |ps|, i, i + 1))
  {
  }

  lemma PushedStep(ps: seq<Project>, i: nat, j: nat)
    requires i + 1 < j <= |ps|
    requires InRange(ps, KeptBefore(LinkedPair(ps), |ps|, i, j - 1))
    requires PushedUpTo(ps, i, j - 1) == LinksOf(ps, KeptBefore(LinkedPair(ps), |ps|, i, j - 1))
    ensures InRange(ps, KeptBefore(LinkedPair(ps), |ps|, i, j))
    ensures PushedUpTo(ps, i, j) == LinksOf(ps, KeptBefore(LinkedPair(ps), |ps|, i, j))
  {
    CompareStep(ps, i, j - 1, KeptBefore(LinkedPair(ps), |ps|, i, j - 1));
  }

  lemma {:induction false} PushedRowsSpec(ps: seq<Project>, i: nat)
    requires i <= |ps|
    ensures InRange(ps, KeptInRows(LinkedPair(ps), |ps|, i))
    ensures PushedRows(ps, i) == LinksOf(ps, KeptInRows(LinkedPair(ps), |ps|, i))
    decreases i, 0
  {
    if i > 0 {
      PushedUpToSpec(ps, i - 1, |ps|);
    }
  }

  /** `getLinks`: compare every pair `i < j` and push a link when the shared
      list is non-empty. */
  method GetLinks(projects: seq<Project>) returns (links: seq<LinkData>)
    ensures links == Links(projects)
  {
    var n := |projects|;
    links := [];
    var i := 0;
    while i < n
      invariant 0 <= i <= n
      invariant links == PushedRows(projects, i)
    {
      var j := i + 1;
      while j < n
        invariant i < j <= n
        invariant links == PushedUpTo(projects, i, j)
      {
        var shared := SharedTech(projects[i].tech, projects[j].tech);
        if |shared| > 0 {
          links := links + [LinkData(projects[i], projects[j], |shared|, shared)];
        }
        j := j + 1;
      }
      i := i + 1;
    }
    PushedRowsSpec(projects, n);
    KeptInRowsIsFilter(LinkedPair(projects), n, n);
  }

  // ---------------------------------------------------------------------
  // Link distance
  // ---------------------------------------------------------------------

  /** The target separation the link force pulls two linked nodes toward. */
  function LinkDistance(strength: int): (d: int)
    ensures d % 30 == 0
    ensures strength == 1 ==> d == 120
    ensures 1 <= strength <= 4 ==> 30 <= d <= 120
  {
    120 - (strength - 1) * 30
  }

  /** One shared technology gives 120; each further one takes 30 off. */
  lemma LinkDistanceSteps(s: int, t: int)
    ensures LinkDistance(1) == 120
    ensures LinkDistance(s + 1) == LinkDistance(s) - 30
    ensures s < t ==> LinkDistance(t) < LinkDistance(s)
  {
  }

  /** When no project lists more than four technologies, every link's
      distance lies between 30 and 120. */
  lemma LinkDistanceRange(ps: seq<Project>, k: nat)
    requires forall m :: 0 <= m < |ps| ==> |ps[m].tech| <= 4
    requires k < |Links(ps)|
    ensures 30 <= LinkDistance(Links(ps)[k].strength) <= 120
  {
    LinkShape(ps, k);
    var p := EmittedPairs(ps)[k];
    assert p in EmittedPairs(ps);
    SharedTechSpec(ps[p.row].tech, ps[p.col].tech);
  }

  // ---------------------------------------------------------------------
  // Nodes, dragging and selection
  // ---------------------------------------------------------------------

  /** A simulation node: a shallow copy of a project whose position and pin
      the layout and the drag handlers update in place. */
  class Node {
    const id: string
    const title: string
    const description: string
    const tech: seq<string>
    var x: Option<real>
    var y: Option<real>
    var fx: Pin
    var fy: Pin

    /** `{ ...p }`: a fresh object carrying every field of `p`. */
    constructor Copy(p: Project)
      ensures Snapshot() == p
    {
      id, title, description, tech := p.id, p.title, p.description, p.tech;
      x, y, fx, fy := p.x, p.y, p.fx, p.fy;
    }

    /** The node's fields as a project value. */
    function Snapshot(): Project
      reads this
    {
      Project(id, title, description, tech, x, y, fx, fy)
    }
  }

  /** `c ?? 0` for an optional coordinate. */
  function OrZero(c: Option<real>): real
  {
    if c.Some? then c.value else 0.0
  }

  /** The graph component's state: the copied nodes, the links derived from
      them, the project shown in the modal (or none) and the layout's
      `alphaTarget`, the only part of the force simulation modelled here. */
  class Graph {
    ghost const projects: seq<Project>
    const nodes: seq<Node>
    const links: seq<LinkData>
    var selected: Node?
    var alphaTarget: real

    ghost predicate Valid()
      reads this
    {
      && |nodes| == |projects|
      && (forall k, l :: 0 <= k < l < |nodes| ==> nodes[k] != nodes[l])
      && (forall k :: 0 <= k < |nodes| ==> nodes[k].id == projects[k].id && nodes[k].tech == projects[k].tech)
      && links == Links(projects)
      && (selected == null || selected in nodes)
    }

    /** Mounting: one fresh copy per project, in input order; links from
      `getLinks`; nothing selected; the simulation at rest. */
    constructor (initialProjects: seq<Project>)
      ensures Valid() && projects == initialProjects
      ensures forall k :: 0 <= k < |nodes| ==> fresh(nodes[k]) && nodes[k].Snapshot() == initialProjects[k]
      ensures selected == null && alphaTarget == 0.0
    {
      var copies: seq<Node> := [];
      var k := 0;
      while k < |initialProjects|
        invariant 0 <= k <= |initialProjects| && |copies| == k
        invariant forall m :: 0 <= m < k ==> fresh(copies[m]) && copies[m].Snapshot() == initialProjects[m]
        invariant forall m, l :: 0 <= m < l < k ==> copies[m] != copies[l]
      {
        var node := new Node.Copy(initialProjects[k]);
        copies := copies + [node];
        k := k + 1;
      }
      // The copies carry the same technology lists, so deriving the links
      // from them or from the input gives the same result.
      var derived := GetLinks(initialProjects);
      projects := initialProjects;
      nodes := copies;
      links := derived;
      selected := null;
      alphaTarget := 0.0;
    }

    /** Drag start: raise `alphaTarget` to 0.3 when no other gesture is active,
        and pin the node where it is (0 for an unset coordinate). */
    method DragStart(d: Node, active: nat)
      requires Valid() && d in nodes
      modifies this`alphaTarget, d`fx, d`fy
      ensures Valid()
      ensures alphaTarget == if active == 0 then 0.3 else old(alphaTarget)
      ensures d.x.Some? ==> d.fx == Fixed(d.x.value)
      ensures d.x.None? ==> d.fx == Fixed(0.0)
      ensures d.y.Some? ==> d.fy == Fixed(d.y.value)
      ensures d.y.None? ==> d.fy == Fixed(0.0)
      ensures IsPinned(d.Snapshot())
    {
      if active == 0 {
        alphaTarget := 0.3;
      }
      d.fx := Fixed(OrZero(d.x));
      d.fy := Fixed(OrZero(d.y));
    }

    /** Drag move: pin the node at the pointer. */
    method Drag(d: Node, pointerX: real, pointerY: real)
      requires Valid() && d in nodes
      modifies d`fx, d`fy
      ensures Valid()
      ensures d.fx == Fixed(pointerX) && d.fy == Fixed(pointerY)
      ensures IsPinned(d.Snapshot())
    {
      d.fx := Fixed(pointerX);
      d.fy := Fixed(pointerY);
    }

    /** Drag end: let the simulation cool when no other gesture is active, and
        release the node (both pins become null). */
    method DragEnd(d: Node, active: nat)
      requires Valid() && d in nodes
      modifies this`alphaTarget, d`fx, d`fy
      ensures Valid()
      ensures alphaTarget == if active == 0 then 0.0 else old(alphaTarget)
      ensures d.fx == Null && d.fy == Null
      ensures !IsPinned(d.Snapshot())
    {
      if active == 0 {
        alphaTarget := 0.0;
      }
      d.fx := Null;
      d.fy := Null;
    }

    /** Clicking a node selects it; the click does not reach the background. */
    method ClickNode(d: Node)
      requires Valid() && d in nodes
      modifies this`selected
      ensures Valid() && selected == d
    {
      selected := d;
    }

    /** Clicking the background clears the selection. */
    method ClickBackground()
      requires Valid()
      modifies this`selected
      ensures Valid() && selected == null
    {
      selected := null;
    }

    /** Closing the detail modal clears the selection. */
    method CloseModal()
      requires Valid()
      modifies this`selected
      ensures Valid() && selected == null
    {
      selected := null;
    }
  }

  /** A whole gesture on one node, with no other gesture active: start, one
      move, end. The node ends unpinned and the simulation back at rest. */
  method CompleteDrag(g: Graph, d: Node, pointerX: real, pointerY: real)
    requires g.Valid() && d in g.nodes
    modifies g`alphaTarget, d`fx, d`fy
    ensures g.Valid()
    ensures d.fx == Null && d.fy == Null && g.alphaTarget == 0.0
    ensures d.x == old(d.x) && d.y == old(d.y)
  {
    g.DragStart(d, 0);
    g.Drag(d, pointerX, pointerY);
    g.DragEnd(d, 0);
  }
}
