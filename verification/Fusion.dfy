/** Reciprocal rank fusion of ranked passage routes, with exact scores. */
module Fusion {
  import opened Common

  type Route = seq<string>

  ghost predicate NoDuplicates(s: seq<string>) {
    forall i, j :: 0 <= i < j < |s| ==> s[i] != s[j]
  }

  // ----- What the two dictionaries hold -----

  /** The share of a passage at 1-based rank `rank`. */
  function Share(c: nat, rank: nat): (r: real)
    requires c >= 1
    ensures r > 0.0
  {
    1.0 / (c + rank) as real
  }

  function RouteScore(c: nat, route: Route, id: string): (r: real)
    requires c >= 1
    ensures r >= 0.0
  {
    if route == [] then 0.0
    else
      var n := |route| - 1;
      RouteScore(c, route[..n], id) + (if route[n] == id then Share(c, n + 1) else 0.0)
  }

  function Score(c: nat, routes: seq<Route>, id: string): (r: real)
    requires c >= 1
    ensures r >= 0.0
  {
    if routes == [] then 0.0
    else
      var n := |routes| - 1;
      Score(c, routes[..n], id) + RouteScore(c, routes[n], id)
  }

  /** First occurrences, in order, after those already seen: the insertion order of both dictionaries. */
  function SeenAfter(seen: seq<string>, route: Route): seq<string> {
    if route == [] then seen
    else
      var n := |route| - 1;
      var before := SeenAfter(seen, route[..n]);
      if route[n] in before then before else before + [route[n]]
  }

  function Seen(routes: seq<Route>): seq<string> {
    if routes == [] then [] else SeenAfter(Seen(routes[..|routes| - 1]), routes[|routes| - 1])
  }

  /** Position of the first occurrence; the length when there is none. */
  function Position(s: seq<string>, id: string): (n: nat)
    ensures n <= |s|
    ensures id in s <==> n < |s|
    ensures n < |s| ==> s[n] == id
    ensures forall i :: 0 <= i < n ==> s[i] != id
  {
    if s == [] || s[0] == id then 0 else 1 + Position(s[1..], id)
  }

  /** The sort key: higher score first, then earlier first sight. Two passages never share a first
      sight, so the passage id that ends the program's key never decides. */
  predicate Ahead(c: nat, routes: seq<Route>, p: string, q: string)
    requires c >= 1
  {
    || Score(c, routes, p) > Score(c, routes, q)
    || (Score(c, routes, p) == Score(c, routes, q) && Position(Seen(routes), p) < Position(Seen(routes), q))
  }

  type Order = (string, string) -> bool

  function Insert(ahead: Order, p: string, sorted: seq<string>): seq<string> {
    if sorted == [] || ahead(p, sorted[0]) then [p] + sorted
    else [sorted[0]] + Insert(ahead, p, sorted[1..])
  }

  function Sort(ahead: Order, ids: seq<string>): seq<string> {
    if ids == [] then [] else Insert(ahead, ids[0], Sort(ahead, ids[1..]))
  }

  /** The order the routes themselves ask for. */
  function ByRoutes(c: nat, routes: seq<Route>): Order
    requires c >= 1
  {
    (p, q) => Ahead(c, routes, p, q)
  }

  /** The full fused order, before truncation. */
  function Ranking(c: nat, routes: seq<Route>): seq<string>
    requires c >= 1
  {
    Sort(ByRoutes(c, routes), Seen(routes))
  }

  function Take(s: seq<string>, k: nat): (r: seq<string>)
    ensures r <= s && |r| == if |s| <= k then |s| else k
  {
    if |s| <= k then s else s[..k]
  }

  function Fused(c: nat, routes: seq<Route>, topK: nat): seq<string>
    requires c >= 1
  {
    Take(Ranking(c, routes), topK)
  }

  // ----- The program -----

  /** The two dictionaries, and the insertion order of their keys. */
  datatype Board = Board(order: seq<string>, scores: map<string, real>, firstSeen: map<string, nat>)

  /** The program's key, read from the two dictionaries. */
  function ByBoard(b: Board): Order {
    (p, q) =>
      || ScoreOn(b, p) > ScoreOn(b, q)
      || (ScoreOn(b, p) == ScoreOn(b, q) && PlaceOn(b, p) < PlaceOn(b, q))
  }

  function ScoreOn(b: Board, id: string): real { if id in b.scores then b.scores[id] else 0.0 }

  function PlaceOn(b: Board, id: string): nat { if id in b.firstSeen then b.firstSeen[id] else |b.firstSeen| }

  /** A passage of some route. */
  ghost predicate Ranked(routes: seq<Route>, id: string) {
    exists i :: 0 <= i < |routes| && id in routes[i]
  }

  /** The best topK passages of all routes, best first: ordered, without repeats, and every passage left
      out is behind every one kept; none is left out while there is room. */
  ghost predicate BestOf(c: nat, routes: seq<Route>, topK: nat, fused: seq<string>)
    requires c >= 1
  {
    && Ordered(c, routes, fused) && NoDuplicates(fused) && |fused| <= topK
    && (forall p :: p in fused ==> Ranked(routes, p))
    && (forall p, q :: p in fused && Ranked(routes, q) && q !in fused ==> Ahead(c, routes, p, q))
    && (forall q :: |fused| < topK && Ranked(routes, q) ==> q in fused)
  }

  method FuseRankedPassages(routes: seq<Route>, topK: nat, rankConstant: nat) returns (fused: seq<string>)
    requires rankConstant >= 1 && topK >= 1
    ensures BestOf(rankConstant, routes, topK, fused)
    ensures fused == Fused(rankConstant, routes, topK)
  {
    FusedIsBest(rankConstant, routes, topK);
    if routes == [] { return []; }
    var board := Board([], map[], map[]);
    TallyStart(rankConstant, routes);
    for i := 0 to |routes|
      invariant Tallied(rankConstant, routes, i, [], board)
    {
      board := AddRoute(rankConstant, routes, i, board);
    }
    fused := Take(Sort(ByBoard(board), board.order), topK);
    BoardSortsLikeRoutes(rankConstant, routes, board);
  }

  /** Once all routes are tallied, sorting by the dictionaries is sorting by the routes. */
  lemma BoardSortsLikeRoutes(c: nat, routes: seq<Route>, b: Board)
    requires c >= 1 && Tallied(c, routes, |routes|, [], b)
    ensures Sort(ByBoard(b), b.order) == Ranking(c, routes)
  {
    assert routes[..|routes|] == routes;
    forall p, q | p in b.order && q in b.order ensures ByBoard(b)(p, q) == ByRoutes(c, routes)(p, q) {
      BoardHolds(c, routes, b, p);
      BoardHolds(c, routes, b, q);
    }
    SortsAgree(ByBoard(b), ByRoutes(c, routes), b.order);
  }

  lemma BoardHolds(c: nat, routes: seq<Route>, b: Board, id: string)
    requires c >= 1 && Tallied(c, routes, |routes|, [], b) && id in b.order
    ensures ScoreOn(b, id) == Score(c, routes, id) && PlaceOn(b, id) == Position(Seen(routes), id)
  {
    assert routes[..|routes|] == routes;
    assert Tally(c, routes, [], id) == b.scores[id];
  }

  lemma {:induction false} SortsAgree(f: Order, g: Order, ids: seq<string>)
    requires forall p, q :: p in ids && q in ids ==> f(p, q) == g(p, q)
    ensures Sort(f, ids) == Sort(g, ids) && forall p :: p in Sort(f, ids) ==> p in ids
  {
    if ids != [] {
      forall p | p in ids[1..] ensures p in ids { }
      SortsAgree(f, g, ids[1..]);
      InsertsAgree(f, g, ids[0], Sort(f, ids[1..]));
    }
  }

  lemma {:induction false} InsertsAgree(f: Order, g: Order, p: string, s: seq<string>)
    requires forall q :: q in s ==> f(p, q) == g(p, q)
    ensures Insert(f, p, s) == Insert(g, p, s)
    ensures forall q :: q in Insert(f, p, s) ==> q == p || q in s
  {
    if s != [] && !f(p, s[0]) {
      InsertsAgree(f, g, p, s[1..]);
    }
  }

  /** The inner loop: count one more route. */
  method AddRoute(c: nat, routes: seq<Route>, i: nat, board: Board) returns (b: Board)
    requires c >= 1 && i < |routes| && Tallied(c, routes, i, [], board)
    ensures Tallied(c, routes, i + 1, [], b)
  {
    b := board;
    var route := routes[i];
    assert route[..0] == [];
    for j := 0 to |route|
      invariant Tallied(c, routes, i, route[..j], b)
    {
      TallyOne(c, routes, i, route, j, b);
      b := AddPassage(c, route[j], j + 1, b);
    }
    TallyRoute(c, routes, i, b);
  }

  method AddPassage(c: nat, id: string, rank: nat, board: Board) returns (b: Board)
    requires c >= 1
    ensures b == Counted(c, id, rank, board)
  {
    var scores, firstSeen, order := board.scores, board.firstSeen, board.order;
    scores := scores[id := (if id in scores then scores[id] else 0.0) + Share(c, rank)];
    if id !in firstSeen {
      firstSeen := firstSeen[id := |firstSeen|];
      order := order + [id];
    }
    b := Board(order, scores, firstSeen);
  }

  function Counted(c: nat, id: string, rank: nat, b: Board): Board
    requires c >= 1
  {
    var scores := b.scores[id := (if id in b.scores then b.scores[id] else 0.0) + Share(c, rank)];
    if id in b.firstSeen then b.(scores := scores)
    else Board(b.order + [id], scores, b.firstSeen[id := |b.firstSeen|])
  }

  /** After the first i routes and the prefix `part` of the next one. */
  ghost predicate Tallied(c: nat, routes: seq<Route>, i: nat, part: Route, b: Board)
    requires c >= 1 && i <= |routes|
  {
    && b.order == SeenAfter(Seen(routes[..i]), part)
    && Placed(b.order, b.firstSeen)
    && Scored(c, routes[..i], part, b.order, b.scores)
  }

  /** firstSeen numbers the passages of `order`. */
  ghost predicate Placed(order: seq<string>, firstSeen: map<string, nat>) {
    && |firstSeen| == |order|
    && (forall id :: id in firstSeen <==> id in order)
    && (forall id :: id in order ==> firstSeen[id] == Position(order, id))
  }

  /** scores holds each seen passage's score, and passages not seen have none. */
  ghost predicate Scored(
    c: nat, done: seq<Route>, part: Route, order: seq<string>, scores: map<string, real>)
    requires c >= 1
  {
    && (forall id :: id in scores <==> id in order)
    && (forall id :: Tally(c, done, part, id) == if id in scores then scores[id] else 0.0)
  }

  function Tally(c: nat, done: seq<Route>, part: Route, id: string): real
    requires c >= 1
  {
    Score(c, done, id) + RouteScore(c, part, id)
  }

  lemma TallyStart(c: nat, routes: seq<Route>)
    requires c >= 1
    ensures Tallied(c, routes, 0, [], Board([], map[], map[]))
  {
    assert routes[..0] == [];
  }

  lemma TallyOne(c: nat, routes: seq<Route>, i: nat, route: Route, j: nat, b: Board)
    requires c >= 1 && i < |routes| && j < |route| && Tallied(c, routes, i, route[..j], b)
    ensures Tallied(c, routes, i, route[..j + 1], Counted(c, route[j], j + 1, b))
  {
    SeenOneMore(Seen(routes[..i]), route, j);
    CountPlaces(c, route[j], j + 1, b);
    CountScores(c, routes[..i], route, j, b);
  }

  lemma CountPlaces(c: nat, id: string, rank: nat, b: Board)
    requires c >= 1 && Placed(b.order, b.firstSeen)
    ensures var next := Counted(c, id, rank, b);
      Placed(next.order, next.firstSeen) && next.order == if id in b.order then b.order else b.order + [id]
  {
    PlaceOne(b.order, b.firstSeen, id);
  }

  lemma CountScores(c: nat, done: seq<Route>, route: Route, j: nat, b: Board)
    requires c >= 1 && j < |route| && Placed(b.order, b.firstSeen)
    requires Scored(c, done, route[..j], b.order, b.scores)
    ensures var next := Counted(c, route[j], j + 1, b);
      Scored(c, done, route[..j + 1], next.order, next.scores)
  {
    ScoreOne(c, done, route, j, b.order, b.scores);
  }

  lemma SeenOneMore(seen: seq<string>, route: Route, j: nat)
    requires j < |route|
    ensures var before := SeenAfter(seen, route[..j]);
      SeenAfter(seen, route[..j + 1]) == if route[j] in before then before else before + [route[j]]
  {
    assert route[..j + 1][..j] == route[..j];
  }

  lemma PlaceOne(order: seq<string>, firstSeen: map<string, nat>, id: string)
    requires Placed(order, firstSeen)
    ensures id !in firstSeen ==> Placed(order + [id], firstSeen[id := |firstSeen|])
  {
    if id !in firstSeen {
      PositionsAfterAppend(order, order + [id]);
      assert (order + [id])[|order|] == id;
      assert Position(order + [id], id) == |order|;
    }
  }

  lemma ScoreOne(c: nat, done: seq<Route>, route: Route, j: nat, order: seq<string>, scores: map<string, real>)
    requires c >= 1 && j < |route| && Scored(c, done, route[..j], order, scores)
    ensures var id := route[j];
      Scored(c, done, route[..j + 1], if id in order then order else order + [id],
             scores[id := (if id in scores then scores[id] else 0.0) + Share(c, j + 1)])
  {
    forall x ensures Tally(c, done, route[..j + 1], x) ==
                     Tally(c, done, route[..j], x) + (if x == route[j] then Share(c, j + 1) else 0.0)
    {
      RouteScoreOneMore(c, route, j, x);
    }
  }

  lemma PositionsAfterAppend(before: seq<string>, after: seq<string>)
    requires before <= after
    ensures forall id :: id in before ==> Position(after, id) == Position(before, id)
  {
    forall id | id in before ensures Position(after, id) == Position(before, id) {
      assert after[Position(before, id)] == id;
    }
  }

  lemma RouteScoreOneMore(c: nat, route: Route, j: nat, x: string)
    requires c >= 1 && j < |route|
    ensures RouteScore(c, route[..j + 1], x) ==
            RouteScore(c, route[..j], x) + (if x == route[j] then Share(c, j + 1) else 0.0)
  {
    assert route[..j + 1][..j] == route[..j];
  }

  lemma TallyRoute(c: nat, routes: seq<Route>, i: nat, b: Board)
    requires c >= 1 && i < |routes| && Tallied(c, routes, i, routes[i][..|routes[i]|], b)
    ensures Tallied(c, routes, i + 1, [], b)
  {
    assert routes[i][..|routes[i]|] == routes[i];
    assert routes[..i + 1][..i] == routes[..i];
    forall id ensures Tally(c, routes[..i + 1], [], id) == Tally(c, routes[..i], routes[i], id) {
      assert routes[..i + 1][i] == routes[i];
    }
  }

  /** The bounded use of it: both routes de-duplicated without blanks and cut to top_k first. */
  function Dedupe(values: seq<string>): (r: seq<string>)
    ensures NoDuplicates(r)
    ensures forall v :: v in r <==> v in values && Strip(v) != ""
    ensures forall i, j :: 0 <= i < j < |r| ==> Position(values, r[i]) < Position(values, r[j])
  {
    if values == [] then []
    else
      var n := |values| - 1;
      var before := Dedupe(values[..n]);
      assert forall v :: v in values <==> v in values[..n] || v == values[n];
      PositionsAfterAppend(values[..n], values);
      if Strip(values[n]) == "" || values[n] in before then before else before + [values[n]]
  }

  // ----- Seen and Sort -----

  lemma {:induction false} SeenAfterShape(seen: seq<string>, route: Route)
    requires NoDuplicates(seen)
    ensures var r := SeenAfter(seen, route);
      seen <= r && NoDuplicates(r) && forall id :: id in r <==> id in seen || id in route
  {
    if route != [] {
      var n := |route| - 1;
      SeenAfterShape(seen, route[..n]);
      assert forall id :: id in route <==> id in route[..n] || id == route[n];
    }
  }

  lemma {:induction false} SeenShape(routes: seq<Route>)
    ensures NoDuplicates(Seen(routes))
    ensures forall id :: id in Seen(routes) <==> Ranked(routes, id)
  {
    if routes != [] {
      var n := |routes| - 1;
      SeenShape(routes[..n]);
      SeenAfterShape(Seen(routes[..n]), routes[n]);
      forall id ensures id in Seen(routes) <==> Ranked(routes, id) {
        if i :| 0 <= i < |routes| && id in routes[i] {
          assert i == n || id in routes[..n][i];
        }
        if id in Seen(routes[..n]) {
          var i :| 0 <= i < n && id in routes[..n][i];
          assert id in routes[i];
        }
      }
    }
  }

  ghost predicate Ordered(c: nat, routes: seq<Route>, s: seq<string>)
    requires c >= 1
  {
    forall i, j :: 0 <= i < j < |s| ==> Ahead(c, routes, s[i], s[j])
  }

  lemma {:induction false} InsertOrdered(c: nat, routes: seq<Route>, p: string, s: seq<string>)
    requires c >= 1 && Ordered(c, routes, s) && p !in s
    requires p in Seen(routes) && forall q :: q in s ==> q in Seen(routes)
    ensures var r := Insert(ByRoutes(c, routes), p, s);
      Ordered(c, routes, r) && |r| == |s| + 1 && forall q :: q in r <==> q == p || q in s
  {
    if s != [] && !Ahead(c, routes, p, s[0]) {
      InsertOrdered(c, routes, p, s[1..]);
      var r, rest := Insert(ByRoutes(c, routes), p, s), Insert(ByRoutes(c, routes), p, s[1..]);
      assert Position(Seen(routes), p) != Position(Seen(routes), s[0]);
      forall j | 0 <= j < |rest| ensures Ahead(c, routes, s[0], rest[j]) {
        assert rest[j] in rest;
        if rest[j] != p {
          var k :| 0 <= k < |s[1..]| && s[1..][k] == rest[j];
          assert s[k + 1] == rest[j];
        }
      }
      forall q ensures q in r <==> q == p || q in s {
        assert q in s <==> q == s[0] || q in s[1..];
      }
    }
  }

  lemma {:induction false} SortOrdered(c: nat, routes: seq<Route>, ids: seq<string>)
    requires c >= 1 && NoDuplicates(ids) && forall q :: q in ids ==> q in Seen(routes)
    ensures var r := Sort(ByRoutes(c, routes), ids);
      Ordered(c, routes, r) && |r| == |ids| && forall q :: q in r <==> q in ids
  {
    if ids != [] {
      assert ids[0] !in ids[1..];
      SortOrdered(c, routes, ids[1..]);
      InsertOrdered(c, routes, ids[0], Sort(ByRoutes(c, routes), ids[1..]));
    }
  }

  /** The ranking holds every passage of every route exactly once, each ahead of all later ones. */
  lemma RankingIsOrdered(c: nat, routes: seq<Route>)
    requires c >= 1
    ensures var r := Ranking(c, routes);
      && Ordered(c, routes, r) && NoDuplicates(r)
      && forall id :: id in r <==> Ranked(routes, id)
  {
    SeenShape(routes);
    SortOrdered(c, routes, Seen(routes));
  }

  lemma FusedIsBest(c: nat, routes: seq<Route>, topK: nat)
    requires c >= 1
    ensures BestOf(c, routes, topK, Fused(c, routes, topK))
  {
    RankingIsOrdered(c, routes);
    var r, fused := Ranking(c, routes), Fused(c, routes, topK);
    forall p, q | p in fused && Ranked(routes, q) && q !in fused ensures Ahead(c, routes, p, q) {
      var i :| 0 <= i < |fused| && fused[i] == p;
      var j := Position(r, q);
      assert r[i] == p && r[j] == q && j >= |fused|;
    }
  }

  // ----- Shares -----

  lemma ShareDecreases(c: nat, a: nat, b: nat)
    requires c >= 1 && a < b
    ensures Share(c, a) > Share(c, b)
  {
    var x, y := (c + a) as real, (c + b) as real;
    assert 1.0 / x - 1.0 / y == (y - x) / (x * y);
  }

  /** In a duplicate-free route a passage's score is the share of its one rank. */
  lemma {:induction false} RouteScoreIsShare(c: nat, route: Route, id: string)
    requires c >= 1 && NoDuplicates(route)
    ensures RouteScore(c, route, id) == if id in route then Share(c, Position(route, id) + 1) else 0.0
  {
    if route != [] {
      var n := |route| - 1;
      RouteScoreIsShare(c, route[..n], id);
      if id in route[..n] {
        assert route[Position(route[..n], id)] == id;
      } else if route[n] == id {
        assert Position(route, id) == n;
      } else {
        assert id !in route;
      }
    }
  }

  /** The scores of reciprocal rank fusion, as they are usually written: one over the constant plus the
      1-based rank, summed over the routes that rank the passage. */
  function ReciprocalRanks(c: nat, routes: seq<Route>, id: string): real
    requires c >= 1
  {
    if routes == [] then 0.0
    else
      var n := |routes| - 1;
      var rank := Position(routes[n], id) + 1;
      ReciprocalRanks(c, routes[..n], id) + if id in routes[n] then 1.0 / (c + rank) as real else 0.0
  }

  lemma {:induction false} ScoresAreReciprocalRanks(c: nat, routes: seq<Route>, id: string)
    requires c >= 1 && forall i :: 0 <= i < |routes| ==> NoDuplicates(routes[i])
    ensures Score(c, routes, id) == ReciprocalRanks(c, routes, id)
  {
    if routes != [] {
      var n := |routes| - 1;
      ScoresAreReciprocalRanks(c, routes[..n], id);
      RouteScoreIsShare(c, routes[n], id);
    }
  }

  lemma {:induction false} HeadShare(c: nat, route: Route)
    requires c >= 1 && route != []
    ensures RouteScore(c, route, route[0]) >= Share(c, 1)
  {
    if |route| > 1 {
      HeadShare(c, route[..|route| - 1]);
    }
  }

  // ----- Head survival -----

  lemma {:induction false} SetOfDistinct(s: seq<string>)
    requires NoDuplicates(s)
    ensures |set id | id in s| == |s|
  {
    if s != [] {
      var n := |s| - 1;
      SetOfDistinct(s[..n]);
      assert (set id | id in s) == (set id | id in s[..n]) + {s[n]};
    }
  }

  lemma {:induction false} SetNoLarger(s: seq<string>)
    ensures |set id | id in s| <= |s|
  {
    if s != [] {
      var n := |s| - 1;
      SetNoLarger(s[..n]);
      assert (set id | id in s) == (set id | id in s[..n]) + {s[n]};
    }
  }

  /** Distinct elements drawn from t are at most |t| many. */
  lemma DistinctAmong(s: seq<string>, t: seq<string>)
    requires NoDuplicates(s) && forall id :: id in s ==> id in t
    ensures |s| <= |t|
  {
    SetOfDistinct(s);
    SetNoLarger(t);
    var a, b := set id | id in s, set id | id in t;
    assert b == a + (b - a);
  }

  /** Only another passage of the original route can come out ahead of its head. */
  lemma OnlyOriginalsOutrankHead(c: nat, original: Route, rewrite: Route, q: string)
    requires c >= 1 && original != [] && NoDuplicates(original) && NoDuplicates(rewrite)
    requires Ahead(c, [original, rewrite], q, original[0])
    ensures q in original[1..]
  {
    var head := original[0];
    TwoRouteScore(c, original, rewrite, head);
    TwoRouteScore(c, original, rewrite, q);
    HeadShare(c, original);
    HeadSeenFirst(original, rewrite);
    NoShareAboveFirst(c, original, q);
    NoShareAboveFirst(c, rewrite, q);
    assert q != head && Score(c, [original, rewrite], q) > Share(c, 1);
  }

  /** No passage of a duplicate-free route gets more than the first share, and outsiders get nothing. */
  lemma NoShareAboveFirst(c: nat, route: Route, q: string)
    requires c >= 1 && NoDuplicates(route)
    ensures RouteScore(c, route, q) <= if q in route then Share(c, 1) else 0.0
  {
    RouteScoreIsShare(c, route, q);
    if q in route && Position(route, q) > 0 {
      ShareDecreases(c, 1, Position(route, q) + 1);
    }
  }

  lemma TwoRouteScore(c: nat, original: Route, rewrite: Route, id: string)
    requires c >= 1
    ensures Score(c, [original, rewrite], id) == RouteScore(c, original, id) + RouteScore(c, rewrite, id)
  {
    assert [original, rewrite][..1] == [original] && [original][..0] == [];
    assert Score(c, [original], id) == Score(c, [], id) + RouteScore(c, original, id);
  }

  lemma HeadSeenFirst(original: Route, rewrite: Route)
    requires original != [] && NoDuplicates(original)
    ensures Position(Seen([original, rewrite]), original[0]) == 0
  {
    assert [original, rewrite][..1] == [original] && [original][..0] == [];
    assert Seen([original]) == SeenAfter([], original);
    HeadStaysFirst(original, |original|);
    assert original[..|original|] == original;
    SeenAfterShape([], original);
    SeenAfterShape(Seen([original]), rewrite);
    assert Seen([original, rewrite])[0] == original[0];
  }

  lemma {:induction false} HeadStaysFirst(route: Route, n: nat)
    requires 1 <= n <= |route|
    ensures SeenAfter([], route[..n]) != [] && SeenAfter([], route[..n])[0] == route[0]
    decreases n
  {
    if n == 1 {
      assert route[..1][..0] == [];
    } else {
      HeadStaysFirst(route, n - 1);
      assert route[..n][..n - 1] == route[..n - 1];
    }
  }

  /** The first passage of a non-empty original route is always in the fused top_k, whatever the
      rewrite found: at most top_k - 1 passages can be ahead of it. */
  lemma HeadSurvives(c: nat, originalIds: seq<string>, rewriteIds: seq<string>, topK: nat)
    requires c >= 1 && topK >= 1
    ensures var original, rewrite := Take(Dedupe(originalIds), topK), Take(Dedupe(rewriteIds), topK);
      original != [] ==> original[0] in Fused(c, [original, rewrite], topK)
  {
    var original, rewrite := Take(Dedupe(originalIds), topK), Take(Dedupe(rewriteIds), topK);
    if original != [] { HeadStaysInTop(c, original, rewrite, topK); }
  }

  lemma HeadStaysInTop(c: nat, original: Route, rewrite: Route, topK: nat)
    requires c >= 1 && NoDuplicates(original) && NoDuplicates(rewrite) && 1 <= |original| <= topK
    ensures original[0] in Fused(c, [original, rewrite], topK)
  {
    var routes := [original, rewrite];
    var r := Ranking(c, routes);
    RankingIsOrdered(c, routes);
    assert original[0] in routes[0];
    var n := Position(r, original[0]);
    forall q | q in r[..n] ensures q in original[1..] {
      var i :| 0 <= i < n && r[i] == q;
      assert Ahead(c, routes, r[i], r[n]);
      OnlyOriginalsOutrankHead(c, original, rewrite, q);
    }
    DistinctAmong(r[..n], original[1..]);
    assert Fused(c, routes, topK)[n] == original[0];
  }

  // ----- Dominance -----

  /** In every route that holds b, a is ranked before it. */
  ghost predicate Dominates(routes: seq<Route>, a: string, b: string) {
    forall i :: 0 <= i < |routes| && b in routes[i] ==> a in routes[i] && Position(routes[i], a) < Position(routes[i], b)
  }

  lemma {:induction false} DominatorScores(c: nat, routes: seq<Route>, a: string, b: string)
    requires c >= 1 && Dominates(routes, a, b)
    requires forall i :: 0 <= i < |routes| ==> NoDuplicates(routes[i])
    ensures Score(c, routes, a) >= Score(c, routes, b)
    ensures Ranked(routes, b) ==> Score(c, routes, a) > Score(c, routes, b)
  {
    if routes != [] {
      var n := |routes| - 1;
      DominatorScores(c, routes[..n], a, b);
      RouteScoreIsShare(c, routes[n], a);
      RouteScoreIsShare(c, routes[n], b);
      if b in routes[n] {
        ShareDecreases(c, Position(routes[n], a) + 1, Position(routes[n], b) + 1);
      } else if i :| 0 <= i < |routes| && b in routes[i] {
        assert b in routes[..n][i];
      }
    }
  }

  /** A passage that beats another in every route that ranks the other precedes it in the fused order. */
  lemma FusionRespectsDominance(c: nat, routes: seq<Route>, a: string, b: string)
    requires c >= 1 && Dominates(routes, a, b)
    requires forall i :: 0 <= i < |routes| ==> NoDuplicates(routes[i])
    requires Ranked(routes, b)
    ensures var r := Ranking(c, routes); a in r && b in r && Position(r, a) < Position(r, b)
  {
    DominatorScores(c, routes, a, b);
    RankingIsOrdered(c, routes);
    var i :| 0 <= i < |routes| && b in routes[i];
    assert a in routes[i];
    HigherScoreIsEarlier(c, routes, Ranking(c, routes), a, b);
  }

  lemma HigherScoreIsEarlier(c: nat, routes: seq<Route>, r: seq<string>, a: string, b: string)
    requires c >= 1 && Ordered(c, routes, r) && a in r && b in r
    requires Score(c, routes, a) > Score(c, routes, b)
    ensures Position(r, a) < Position(r, b)
  {
    var i, j := Position(r, b), Position(r, a);
    assert r[i] == b && r[j] == a;
  }

  // ----- Truncation and single routes -----

  /** The fused list has no repeats, and asking for fewer gives a prefix of asking for more. */
  lemma FusedPrefixes(c: nat, routes: seq<Route>, few: nat, many: nat)
    requires c >= 1 && few <= many
    ensures NoDuplicates(Fused(c, routes, many))
    ensures Fused(c, routes, few) <= Fused(c, routes, many)
  {
    RankingIsOrdered(c, routes);
  }

  lemma {:induction false} SortOfOrdered(c: nat, routes: seq<Route>, ids: seq<string>)
    requires c >= 1 && Ordered(c, routes, ids)
    ensures Sort(ByRoutes(c, routes), ids) == ids
  {
    if ids != [] {
      SortOfOrdered(c, routes, ids[1..]);
      if |ids| > 1 { assert Ahead(c, routes, ids[0], ids[1]); }
    }
  }

  lemma {:induction false} SeenOfDistinct(seen: seq<string>, route: Route)
    requires NoDuplicates(seen + route)
    ensures SeenAfter(seen, route) == seen + route
  {
    if route == [] {
      assert seen + route == seen;
    } else {
      var n := |route| - 1;
      var all := seen + route;
      assert seen + route[..n] == all[..|all| - 1];
      SeenOfDistinct(seen, route[..n]);
      assert all[|all| - 1] == route[n];
      assert seen + route[..n] + [route[n]] == all;
    }
  }

  lemma OneRoute(c: nat, route: Route)
    requires c >= 1 && NoDuplicates(route)
    ensures Seen([route]) == route
    ensures forall id :: Score(c, [route], id) == RouteScore(c, route, id)
  {
    assert [route][..0] == [] && [] + route == route;
    SeenOfDistinct([], route);
    forall id ensures Score(c, [route], id) == RouteScore(c, route, id) {
      assert Score(c, [route], id) == Score(c, [], id) + RouteScore(c, route, id);
    }
  }

  lemma EarlierIsAhead(c: nat, route: Route, i: nat, j: nat)
    requires c >= 1 && NoDuplicates(route) && i < j < |route|
    ensures Ahead(c, [route], route[i], route[j])
  {
    OneRoute(c, route);
    RouteScoreIsShare(c, route, route[i]);
    RouteScoreIsShare(c, route, route[j]);
    assert Position(route, route[i]) == i && Position(route, route[j]) == j;
    ShareDecreases(c, i + 1, j + 1);
  }

  /** Fusing one duplicate-free route changes nothing but its length. */
  lemma SingleRouteFusesToItself(c: nat, route: Route, topK: nat)
    requires c >= 1 && NoDuplicates(route)
    ensures Fused(c, [route], topK) == Take(route, topK)
  {
    OneRoute(c, route);
    forall i, j | 0 <= i < j < |route| ensures Ahead(c, [route], route[i], route[j]) {
      EarlierIsAhead(c, route, i, j);
    }
    SortOfOrdered(c, [route], route);
  }
}
