/** K-means clustering of two-dimensional points (`performKMeansClusteringSimple` and `simpleKMeans`,
    js/ml-analyzer.js). Each round assigns every point to the first nearest centroid, then moves each
    centroid that received points to their mean; a centroid that received none stays where it was. The
    rounds stop when no centroid moved by more than 0.001 in either coordinate, or after `maxIterations`
    rounds. Distances are squared: the square root the code takes is monotone, so the nearest centroid is
    the same. The random choice of the initial centroids is a parameter: the values `Math.random` returned. */
module KMeans {
  import opened Cells
  import opened Numeric

  /** A point `[x, y]`. */
  datatype Point = Point(x: real, y: real)

  /** A cluster of one round: the points assigned to it, in input order, and its new centroid. The centroid is
      `None` for a cluster no point was assigned to (the code leaves its `centroid` as `[]`). */
  datatype Cluster = Cluster(points: seq<Point>, centroid: Option<Point>)

  /** The square of the Euclidean distance. */
  function SquaredDistance(p: Point, c: Point): real {
    Square(p.x - c.x) + Square(p.y - c.y)
  }

  /** The index of the centroid a point is assigned to: scanning the centroids in order, a later one is taken
      only when strictly nearer, so ties go to the lowest index. */
  function Nearest(p: Point, cs: seq<Point>): (r: nat)
    requires |cs| > 0
    ensures r < |cs|
  {
    if |cs| == 1 then 0
    else
      var best := Nearest(p, cs[..|cs| - 1]);
      if SquaredDistance(p, cs[|cs| - 1]) < SquaredDistance(p, cs[best]) then |cs| - 1 else best
  }

  /** The assigned centroid is at minimal distance, and every centroid before it is strictly farther. */
  lemma {:induction false} NearestIsFirstMinimum(p: Point, cs: seq<Point>)
    requires |cs| > 0
    ensures forall i :: 0 <= i < |cs| ==> SquaredDistance(p, cs[Nearest(p, cs)]) <= SquaredDistance(p, cs[i])
    ensures forall i :: 0 <= i < Nearest(p, cs) ==> SquaredDistance(p, cs[i]) > SquaredDistance(p, cs[Nearest(p, cs)])
  {
    if |cs| > 1 {
      var front := cs[..|cs| - 1];
      NearestIsFirstMinimum(p, front);
      assert forall i :: 0 <= i < |front| ==> front[i] == cs[i];
    }
  }

  /** Conversely, the first index at minimal distance is the assigned one. */
  lemma NearestIsUnique(p: Point, cs: seq<Point>, j: nat)
    requires j < |cs|
    requires forall i :: 0 <= i < |cs| ==> SquaredDistance(p, cs[j]) <= SquaredDistance(p, cs[i])
    requires forall i :: 0 <= i < j ==> SquaredDistance(p, cs[i]) > SquaredDistance(p, cs[j])
    ensures Nearest(p, cs) == j
  {
    NearestIsFirstMinimum(p, cs);
  }

  /** The points assigned to centroid `j`, in input order: what the code pushes onto `clusters[j].points`. */
  function Assigned(points: seq<Point>, cs: seq<Point>, j: nat): (r: seq<Point>)
    requires |cs| > 0
    ensures |r| <= |points|
  {
    if points == [] then []
    else
      var p := points[|points| - 1];
      Assigned(points[..|points| - 1], cs, j) + if Nearest(p, cs) == j then [p] else []
  }

  lemma AssignedAppend(points: seq<Point>, p: Point, cs: seq<Point>, j: nat)
    requires |cs| > 0
    ensures Assigned(points + [p], cs, j) == Assigned(points, cs, j) + if Nearest(p, cs) == j then [p] else []
  {
    assert (points + [p])[..|points|] == points;
  }

  /** Group `j` holds each point whose nearest centroid is `j` as often as the input does, and no other. */
  lemma {:induction false} AssignedCount(points: seq<Point>, cs: seq<Point>, j: nat, q: Point)
    requires |cs| > 0
    ensures multiset(Assigned(points, cs, j))[q] == if Nearest(q, cs) == j then multiset(points)[q] else 0
  {
    if points != [] {
      var front := points[..|points| - 1];
      AssignedCount(front, cs, j, q);
      assert points == front + [points[|points| - 1]];
    }
  }

  /** A point is in group `j` exactly when it is one of the points and `j` is its nearest centroid. */
  lemma AssignedMembers(points: seq<Point>, cs: seq<Point>, j: nat, q: Point)
    requires |cs| > 0
    ensures q in Assigned(points, cs, j) <==> q in points && Nearest(q, cs) == j
  {
    AssignedCount(points, cs, j, q);
  }

  /** `sum(xs) / n` per coordinate: the centroid of a non-empty group. */
  function MeanPoint(ps: seq<Point>): Point
    requires |ps| > 0
  {
    Point(Sum(Xs(ps)) / |ps| as real, Sum(Ys(ps)) / |ps| as real)
  }

  function Xs(ps: seq<Point>): seq<real>
  {
    seq(|ps|, i requires 0 <= i < |ps| => ps[i].x)
  }

  function Ys(ps: seq<Point>): seq<real>
  {
    seq(|ps|, i requires 0 <= i < |ps| => ps[i].y)
  }

  /** `Math.abs(dx) > 0.001 || Math.abs(dy) > 0.001`: the centroid moved. */
  predicate Moved(next: Point, previous: Point) {
    Abs(next.x - previous.x) > 0.001 || Abs(next.y - previous.y) > 0.001
  }

  /** The cluster a group forms: its mean as centroid, none when empty. */
  function ClusterOf(group: seq<Point>): Cluster {
    Cluster(group, if group == [] then None else Some(MeanPoint(group)))
  }

  /** The centroid after an update: the group's mean, or the previous centroid for an empty group. */
  function NextCentroid(group: seq<Point>, previous: Point): Point {
    if group == [] then previous else MeanPoint(group)
  }

  /** Whether the group's update clears the `converged` flag. */
  predicate MovesCentroid(group: seq<Point>, previous: Point) {
    group != [] && Moved(MeanPoint(group), previous)
  }

  datatype RoundResult = RoundResult(clusters: seq<Cluster>, centroids: seq<Point>, converged: bool)

  /** The assignment step's buckets, one per centroid. */
  function Groups(points: seq<Point>, cs: seq<Point>): (r: seq<seq<Point>>)
    requires |cs| > 0
    ensures |r| == |cs|
  {
    seq(|cs|, j requires 0 <= j < |cs| => Assigned(points, cs, j))
  }

  /** The update step on the buckets `groups` of centroids `cs`. */
  function Update(groups: seq<seq<Point>>, cs: seq<Point>): (r: RoundResult)
    requires |groups| == |cs|
    ensures |r.clusters| == |r.centroids| == |cs|
  {
    RoundResult(
      seq(|cs|, j requires 0 <= j < |cs| => ClusterOf(groups[j])),
      seq(|cs|, j requires 0 <= j < |cs| => NextCentroid(groups[j], cs[j])),
      forall j :: 0 <= j < |cs| ==> !MovesCentroid(groups[j], cs[j]))
  }

  /** One iteration of the loop: assignment against the centroids `cs`, then the update. */
  function Round(points: seq<Point>, cs: seq<Point>): (r: RoundResult)
    requires |cs| > 0
    ensures |r.clusters| == |r.centroids| == |cs|
  {
    Update(Groups(points, cs), cs)
  }

  lemma RoundAt(points: seq<Point>, cs: seq<Point>, j: nat)
    requires j < |cs|
    ensures Round(points, cs).clusters[j] == ClusterOf(Assigned(points, cs, j))
    ensures Round(points, cs).centroids[j] == NextCentroid(Assigned(points, cs, j), cs[j])
  {
  }

  /** An empty cluster keeps its previous centroid and reports none; a non-empty one moves to its mean. */
  lemma RoundUpdate(points: seq<Point>, cs: seq<Point>, j: nat)
    requires j < |cs|
    ensures var r := Round(points, cs);
      && (Assigned(points, cs, j) == [] ==> r.centroids[j] == cs[j] && r.clusters[j].centroid == None)
      && (Assigned(points, cs, j) != [] ==>
            r.centroids[j] == MeanPoint(Assigned(points, cs, j)) && r.clusters[j].centroid == Some(r.centroids[j]))
  {
  }

  /** A point is in cluster `j` of a round exactly when `j` is its nearest centroid. */
  lemma RoundAssignment(points: seq<Point>, cs: seq<Point>, j: nat, q: Point)
    requires j < |cs|
    ensures q in Round(points, cs).clusters[j].points <==> q in points && Nearest(q, cs) == j
  {
    AssignedMembers(points, cs, j, q);
  }

  /** The multiset union of the first `m` groups. */
  function GroupUnion(points: seq<Point>, cs: seq<Point>, m: nat): multiset<Point>
    requires |cs| > 0
  {
    if m == 0 then multiset{} else GroupUnion(points, cs, m - 1) + multiset(Assigned(points, cs, m - 1))
  }

  lemma {:induction false} GroupUnionCount(points: seq<Point>, cs: seq<Point>, m: nat, q: Point, owner: nat)
    requires |cs| > 0 && owner == Nearest(q, cs)
    ensures GroupUnion(points, cs, m)[q] == if owner < m then multiset(points)[q] else 0
  {
    if m > 0 {
      var j := m - 1;
      GroupUnionCount(points, cs, j, q, owner);
      AssignedCount(points, cs, j, q);
      GroupUnionStep(points, cs, m, j, q);
    }
  }

  lemma GroupUnionStep(points: seq<Point>, cs: seq<Point>, m: nat, j: nat, q: Point)
    requires |cs| > 0 && m == j + 1
    ensures GroupUnion(points, cs, m)[q] == GroupUnion(points, cs, j)[q] + multiset(Assigned(points, cs, j))[q]
  {
    assert m - 1 == j;
    var before, added := GroupUnion(points, cs, j), multiset(Assigned(points, cs, j));
    assert GroupUnion(points, cs, m) == before + added;
    assert (before + added)[q] == before[q] + added[q];
  }

  /** The groups of all centroids together hold every point exactly once. */
  lemma GroupsPartition(points: seq<Point>, cs: seq<Point>)
    requires |cs| > 0
    ensures GroupUnion(points, cs, |cs|) == multiset(points)
  {
    forall q ensures GroupUnion(points, cs, |cs|)[q] == multiset(points)[q] {
      GroupUnionCount(points, cs, |cs|, q, Nearest(q, cs));
    }
  }

  /** All points of a list of clusters, as a multiset. */
  function PointsOf(clusters: seq<Cluster>): multiset<Point> {
    if clusters == [] then multiset{}
    else PointsOf(clusters[..|clusters| - 1]) + multiset(clusters[|clusters| - 1].points)
  }

  /** The sum of the cluster sizes. */
  function ClusterSizes(clusters: seq<Cluster>): nat {
    if clusters == [] then 0 else ClusterSizes(clusters[..|clusters| - 1]) + |clusters[|clusters| - 1].points|
  }

  lemma {:induction false} ClusterSizesCountPoints(clusters: seq<Cluster>)
    ensures ClusterSizes(clusters) == |PointsOf(clusters)|
  {
    if clusters != [] {
      ClusterSizesCountPoints(clusters[..|clusters| - 1]);
    }
  }

  lemma {:induction false} ClustersUnion(clusters: seq<Cluster>, points: seq<Point>, cs: seq<Point>, m: nat)
    requires |cs| > 0 && m <= |clusters|
    requires forall j :: 0 <= j < |clusters| ==> clusters[j].points == Assigned(points, cs, j)
    ensures PointsOf(clusters[..m]) == GroupUnion(points, cs, m)
  {
    if m > 0 {
      assert clusters[..m][..m - 1] == clusters[..m - 1];
      ClustersUnion(clusters, points, cs, m - 1);
    }
  }

  /** The clusters of a round partition the points: together they hold each point exactly as often as the
      input does, so the cluster sizes sum to the number of points. */
  lemma RoundPartitionsPoints(points: seq<Point>, cs: seq<Point>)
    requires |cs| > 0
    ensures PointsOf(Round(points, cs).clusters) == multiset(points)
    ensures ClusterSizes(Round(points, cs).clusters) == |points|
  {
    var clusters := Round(points, cs).clusters;
    forall j | 0 <= j < |clusters| ensures clusters[j].points == Assigned(points, cs, j) {
      RoundAt(points, cs, j);
    }
    ClustersUnion(clusters, points, cs, |cs|);
    assert clusters[..|cs|] == clusters;
    GroupsPartition(points, cs);
    ClusterSizesCountPoints(clusters);
  }

  /** The outcome of the loop: the clusters of the last round, the centroids after it, and the number of
      rounds run. */
  datatype Outcome = Outcome(clusters: seq<Cluster>, centroids: seq<Point>, rounds: nat)

  /** The loop from centroids `cs` with `remaining` iterations left; `last` is the cluster list so far (`[]`
      before the first round). */
  function RunFrom(points: seq<Point>, cs: seq<Point>, remaining: nat, last: seq<Cluster>): (r: Outcome)
    requires |cs| > 0
    ensures r.rounds <= remaining && (remaining > 0 ==> r.rounds > 0)
    ensures |r.centroids| == |cs|
    decreases remaining
  {
    if remaining == 0 then Outcome(last, cs, 0)
    else
      var round := Round(points, cs);
      if round.converged then Outcome(round.clusters, round.centroids, 1)
      else
        var rest := RunFrom(points, round.centroids, remaining - 1, round.clusters);
        Outcome(rest.clusters, rest.centroids, rest.rounds + 1)
  }

  /** One round of the loop: a converged round ends it with its clusters (`RunStops`); otherwise the loop goes
      on from the new centroids with one iteration fewer (`RunContinues`). */
  lemma RunStops(points: seq<Point>, cs: seq<Point>, remaining: nat, last: seq<Cluster>, clusters: seq<Cluster>, next: seq<Point>)
    requires |cs| > 0 && remaining > 0 && Round(points, cs) == RoundResult(clusters, next, true)
    ensures RunFrom(points, cs, remaining, last).clusters == clusters
  {
  }

  lemma RunContinues(points: seq<Point>, cs: seq<Point>, remaining: nat, rest: nat, last: seq<Cluster>, clusters: seq<Cluster>, next: seq<Point>)
    requires |cs| > 0 && remaining == rest + 1 && Round(points, cs) == RoundResult(clusters, next, false)
    ensures |next| > 0
    ensures RunFrom(points, cs, remaining, last).clusters == RunFrom(points, next, rest, clusters).clusters
  {
    var round := Round(points, cs);
    assert round.centroids == next && round.clusters == clusters && !round.converged;
    assert remaining - 1 == rest;
    var after := RunFrom(points, next, rest, clusters);
    assert RunFrom(points, cs, remaining, last) == Outcome(after.clusters, after.centroids, after.rounds + 1);
  }

  /** Once at least one round has run, the reported clusters are those of a round: they partition the points. */
  lemma {:induction false} RunPartitionsPoints(points: seq<Point>, cs: seq<Point>, remaining: nat, last: seq<Cluster>)
    requires |cs| > 0 && remaining > 0
    ensures PointsOf(RunFrom(points, cs, remaining, last).clusters) == multiset(points)
    ensures ClusterSizes(RunFrom(points, cs, remaining, last).clusters) == |points|
    ensures |RunFrom(points, cs, remaining, last).clusters| == |cs|
    decreases remaining
  {
    var round := Round(points, cs);
    RoundPartitionsPoints(points, cs);
    if !round.converged && remaining > 1 {
      RunPartitionsPoints(points, round.centroids, remaining - 1, round.clusters);
    }
  }

  /** With no iterations the loop reports no clusters. */
  lemma NoIterationsNoClusters(points: seq<Point>, cs: seq<Point>)
    requires |cs| > 0
    ensures RunFrom(points, cs, 0, []) == Outcome([], cs, 0)
  {
  }

  lemma {:induction false} AssignedToOnlyCentroid(points: seq<Point>, c: Point)
    ensures Assigned(points, [c], 0) == points
  {
    if points != [] {
      AssignedToOnlyCentroid(points[..|points| - 1], c);
    }
  }

  /** With one centroid, a round puts every point in the one cluster and moves the centroid to the
      coordinate-wise mean. */
  lemma SingleClusterRound(points: seq<Point>, c: Point)
    requires |points| > 0
    ensures Round(points, [c]).clusters == [Cluster(points, Some(MeanPoint(points)))]
    ensures Round(points, [c]).centroids == [MeanPoint(points)]
    ensures Round(points, [c]).converged == !Moved(MeanPoint(points), c)
  {
    AssignedToOnlyCentroid(points, c);
    RoundAt(points, [c], 0);
  }

  /** With one centroid the loop ends after at most two rounds, at the mean of all points. */
  lemma SingleClusterSettles(points: seq<Point>, c: Point, maxIterations: nat)
    requires |points| > 0 && maxIterations > 0
    ensures var r := RunFrom(points, [c], maxIterations, []);
      && r.clusters == [Cluster(points, Some(MeanPoint(points)))]
      && r.centroids == [MeanPoint(points)]
      && r.rounds <= 2
  {
    var mean := MeanPoint(points);
    SingleClusterRound(points, c);
    SingleClusterRound(points, mean);
    assert !Moved(mean, mean);
  }

  /** `Math.floor(Math.random() * points.length)` for a draw `r` in `[0, 1)`. */
  function InitialIndex(r: real, n: nat): (i: nat)
    requires 0.0 <= r < 1.0 && n > 0
    ensures i < n
  {
    var f := (r * n as real).Floor;
    assert 0.0 <= r * n as real < n as real by {
      assert r * n as real <= 1.0 * n as real;
      assert r * n as real != n as real;
    }
    f
  }

  /** The draws `Math.random` returns, one per initial centroid. */
  predicate ValidDraws(randoms: seq<real>) {
    forall i :: 0 <= i < |randoms| ==> 0.0 <= randoms[i] < 1.0
  }

  /** The initial centroids: copies of the points the draws pick. */
  function InitialCentroids(points: seq<Point>, randoms: seq<real>, k: nat): (cs: seq<Point>)
    requires |points| > 0 && k <= |randoms| && ValidDraws(randoms)
    ensures |cs| == k
    ensures forall i :: 0 <= i < k ==> cs[i] in points
  {
    seq(k, i requires 0 <= i < k => points[InitialIndex(randoms[i], |points|)])
  }

  /** `simpleKMeans(points, k, maxIterations)` as a function of the draws. */
  function SimpleKMeansOf(points: seq<Point>, k: nat, randoms: seq<real>, maxIterations: nat): seq<Cluster>
    requires |points| > 0 && 0 < k <= |randoms| && ValidDraws(randoms)
  {
    RunFrom(points, InitialCentroids(points, randoms, k), maxIterations, []).clusters
  }

  /** The nearest-centroid scan of one point. Index 0 is always taken first (every distance is below the
      initial `Infinity`), after which a centroid replaces the current one only when strictly nearer. */
  method NearestCentroid(p: Point, centroids: array<Point>) returns (closest: nat)
    requires centroids.Length > 0
    ensures closest == Nearest(p, centroids[..])
  {
    closest := 0;
    var minDistance := SquaredDistance(p, centroids[0]);
    var index := 1;
    while index < centroids.Length
      invariant 1 <= index <= centroids.Length
      invariant closest == Nearest(p, centroids[..index])
      invariant minDistance == SquaredDistance(p, centroids[closest])
    {
      assert centroids[..index + 1][..index] == centroids[..index];
      var distance := SquaredDistance(p, centroids[index]);
      if distance < minDistance {
        minDistance := distance;
        closest := index;
      }
      index := index + 1;
    }
    assert centroids[..index] == centroids[..];
  }

  /** `simpleKMeans`: the centroids live in an array updated in place, the round's point lists in an array of
      buckets. */
  method SimpleKMeans(points: seq<Point>, k: nat, randoms: seq<real>, maxIterations: nat) returns (clusters: seq<Cluster>)
    requires |points| > 0 && 0 < k <= |randoms| && ValidDraws(randoms)
    ensures clusters == SimpleKMeansOf(points, k, randoms, maxIterations)
  {
    var centroids := ChooseCentroids(points, k, randoms);
    clusters := Iterate(points, centroids, maxIterations);
  }

  /** The iteration loop of `simpleKMeans`, from the centroids in `centroids`. */
  method Iterate(points: seq<Point>, centroids: array<Point>, maxIterations: nat) returns (clusters: seq<Cluster>)
    requires centroids.Length > 0
    modifies centroids
    ensures clusters == RunFrom(points, old(centroids[..]), maxIterations, []).clusters
  {
    clusters := [];
    var iteration := 0;
    ghost var remaining: nat := maxIterations;
    while iteration < maxIterations
      invariant 0 <= iteration <= maxIterations && remaining == maxIterations - iteration
      invariant centroids.Length > 0
      invariant RunFrom(points, centroids[..], remaining, clusters).clusters ==
        RunFrom(points, old(centroids[..]), maxIterations, []).clusters
    {
      ghost var cs := centroids[..];
      var converged, roundClusters := RunRound(points, centroids);
      if converged {
        RunStops(points, cs, remaining, clusters, roundClusters, centroids[..]);
        clusters := roundClusters;
        break;
      }
      ghost var rest: nat := remaining - 1;
      RunContinues(points, cs, remaining, rest, clusters, roundClusters, centroids[..]);
      clusters, remaining := roundClusters, rest;
      iteration := iteration + 1;
    }
  }

  /** One iteration: assignment, then the update of the centroids in place. */
  method RunRound(points: seq<Point>, centroids: array<Point>) returns (converged: bool, roundClusters: seq<Cluster>)
    requires centroids.Length > 0
    modifies centroids
    ensures Round(points, old(centroids[..])) == RoundResult(roundClusters, centroids[..], converged)
  {
    var groups := AssignPoints(points, centroids);
    converged, roundClusters := UpdateCentroids(centroids, groups[..], centroids[..]);
  }

  /** The initialisation: centroid `i` is a copy of the point draw `i` picks. */
  method ChooseCentroids(points: seq<Point>, k: nat, randoms: seq<real>) returns (centroids: array<Point>)
    requires |points| > 0 && k <= |randoms| && ValidDraws(randoms)
    ensures fresh(centroids)
    ensures centroids[..] == InitialCentroids(points, randoms, k)
  {
    centroids := new Point[k];
    for i := 0 to k
      invariant forall t :: 0 <= t < i ==> centroids[t] == InitialCentroids(points, randoms, k)[t]
    {
      centroids[i] := points[InitialIndex(randoms[i], |points|)];
    }
    assert centroids[..] == InitialCentroids(points, randoms, k);
  }

  /** The assignment step: bucket `j` receives, in order, the points whose nearest centroid is `j`. */
  method AssignPoints(points: seq<Point>, centroids: array<Point>) returns (groups: array<seq<Point>>)
    requires centroids.Length > 0
    ensures fresh(groups) && groups.Length == centroids.Length
    ensures groups[..] == Groups(points, centroids[..])
  {
    var k := centroids.Length;
    groups := new seq<Point>[k](j => []);
    var i := 0;
    while i < |points|
      invariant 0 <= i <= |points|
      invariant forall j :: 0 <= j < k ==> groups[j] == Assigned(points[..i], centroids[..], j)
    {
      var closest := NearestCentroid(points[i], centroids);
      forall j | 0 <= j < k
        ensures Assigned(points[..i + 1], centroids[..], j) ==
          Assigned(points[..i], centroids[..], j) + if closest == j then [points[i]] else []
      {
        assert points[..i + 1] == points[..i] + [points[i]];
        AssignedAppend(points[..i], points[i], centroids[..], j);
      }
      groups[closest] := groups[closest] + [points[i]];
      i := i + 1;
    }
    assert points[..i] == points;
    assert groups[..] == Groups(points, centroids[..]);
  }

  /** The update step: a non-empty bucket moves its centroid to its mean, clearing `converged` when that
      moves it by more than 0.001 in a coordinate; an empty bucket leaves its centroid alone. */
  method UpdateCentroids(centroids: array<Point>, groups: seq<seq<Point>>, ghost cs: seq<Point>)
    returns (converged: bool, roundClusters: seq<Cluster>)
    requires centroids.Length == |groups| > 0 && centroids[..] == cs
    modifies centroids
    ensures centroids[..] == Update(groups, cs).centroids
    ensures roundClusters == Update(groups, cs).clusters
    ensures converged == Update(groups, cs).converged
  {
    var k := centroids.Length;
    converged := true;
    roundClusters := [];
    var index := 0;
    while index < k
      invariant 0 <= index <= k
      invariant |roundClusters| == index
      invariant forall t :: 0 <= t < index ==> roundClusters[t] == ClusterOf(groups[t])
      invariant forall t :: 0 <= t < index ==> centroids[t] == NextCentroid(groups[t], cs[t])
      invariant forall t :: index <= t < k ==> centroids[t] == cs[t]
      invariant converged <==> forall t :: 0 <= t < index ==> !MovesCentroid(groups[t], cs[t])
    {
      ghost var previous := roundClusters;
      var group := groups[index];
      if |group| > 0 {
        var newCentroid := MeanPoint(group);
        if Moved(newCentroid, centroids[index]) {
          converged := false;
        }
        centroids[index] := newCentroid;
        roundClusters := roundClusters + [Cluster(group, Some(newCentroid))];
      } else {
        roundClusters := roundClusters + [Cluster(group, None)];
      }
      assert roundClusters[index] == ClusterOf(groups[index]);
      assert forall t :: 0 <= t < index ==> roundClusters[t] == previous[t];
      index := index + 1;
    }
    assert centroids[..] == Update(groups, cs).centroids;
  }

  /** The pairing of the two columns into points, up to the shorter length. */
  function PairUp(xData: seq<real>, yData: seq<real>): (r: seq<Point>)
    ensures |r| == MinLength(xData, yData)
    ensures forall i :: 0 <= i < |r| ==> r[i] == Point(xData[i], yData[i])
  {
    seq(MinLength(xData, yData), i requires 0 <= i < MinLength(xData, yData) => Point(xData[i], yData[i]))
  }

  /** What `performKMeansClusteringSimple` returns: the clusters, `k`, the points, and each cluster's centroid. */
  datatype Clustering = Clustering(clusters: seq<Cluster>, k: int, points: seq<Point>, centroids: seq<Option<Point>>)

  /** The iteration bound the analysis passes to `simpleKMeans`. */
  const MaxIterations: nat := 100

  /** The clustering of `points` into `k` clusters. Fewer points than `k` is reported with both counts. A
      negative `k` makes `Array(k)` throw; `k = 0` with points makes the assignment write to a missing
      cluster; both exceptions are caught. With `k = 0` and no points the result is empty. */
  function KMeansClustering(points: seq<Point>, k: int, randoms: seq<real>): (r: Result<Clustering>)
    requires k <= |randoms| && ValidDraws(randoms)
    ensures r.Err? <==> |points| < k || k < 0 || (k == 0 && |points| > 0)
    ensures |points| < k ==> r == Err(TooFewPoints(|points|, k))
    ensures r.Ok? ==> |r.value.clusters| == k
  {
    if |points| < k then Err(TooFewPoints(|points|, k))
    else if k < 0 || (k == 0 && |points| > 0) then Err(Exception)
    else if k == 0 then Ok(Clustering([], 0, points, []))
    else
      var clusters := SimpleKMeansOf(points, k, randoms, MaxIterations);
      RunPartitionsPoints(points, InitialCentroids(points, randoms, k), MaxIterations, []);
      Ok(Clustering(clusters, k, points, seq(|clusters|, i requires 0 <= i < |clusters| => clusters[i].centroid)))
  }

  /** A successful clustering partitions the points, and lists each cluster's centroid in cluster order. */
  lemma ClusteringPartitionsPoints(points: seq<Point>, k: int, randoms: seq<real>)
    requires k <= |randoms| && ValidDraws(randoms)
    requires KMeansClustering(points, k, randoms).Ok?
    ensures var c := KMeansClustering(points, k, randoms).value;
      && PointsOf(c.clusters) == multiset(points) && ClusterSizes(c.clusters) == |points|
      && |c.centroids| == |c.clusters|
      && (forall i :: 0 <= i < |c.clusters| ==> c.centroids[i] == c.clusters[i].centroid)
  {
    if k > 0 {
      RunPartitionsPoints(points, InitialCentroids(points, randoms, k), MaxIterations, []);
    }
  }
}
