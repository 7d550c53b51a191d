/** Clustering the day's episodes before they are distilled into facts
    (brain/memory/consolidator.py). */
module Consolidation {

  type Vector = seq<real>

  datatype Episode = Episode(id: string, embedding: Vector)

  type Cosine = (Vector, Vector) -> real

  datatype Option<T> = None | Some(value: T)

  function Plus(v: Vector, w: Vector): (r: Vector)
    requires |v| == |w|
    ensures |r| == |v| && forall k | 0 <= k < |r| :: r[k] == v[k] + w[k]
  {
    seq(|v|, k requires 0 <= k < |v| => v[k] + w[k])
  }

  function Scaled(v: Vector, n: nat): (r: Vector)
    requires n > 0
    ensures |r| == |v| && forall k | 0 <= k < |r| :: r[k] == v[k] / n as real
  {
    seq(|v|, k requires 0 <= k < |v| => v[k] / n as real)
  }

  /** All embeddings come from one column of a fixed, positive dimension. */
  ghost predicate Dimensioned(episodes: seq<Episode>, dimension: nat) {
    dimension > 0 && forall e | e in episodes :: |e.embedding| == dimension
  }

  function SumOf(members: seq<Episode>, dimension: nat): (v: Vector)
    requires members != [] && Dimensioned(members, dimension)
    ensures |v| == dimension
  {
    if |members| == 1 then members[0].embedding
    else Plus(SumOf(members[..|members| - 1], dimension), members[|members| - 1].embedding)
  }

  function Coordinate(members: seq<Episode>, dimension: nat, k: nat): real
    requires Dimensioned(members, dimension) && k < dimension
  {
    if members == [] then 0.0
    else Coordinate(members[..|members| - 1], dimension, k) + members[|members| - 1].embedding[k]
  }

  /** The running sum is the vector sum, coordinate by coordinate. */
  lemma {:induction false} SumMeaning(members: seq<Episode>, dimension: nat, k: nat)
    requires members != [] && Dimensioned(members, dimension) && k < dimension
    ensures SumOf(members, dimension)[k] == Coordinate(members, dimension, k)
  {
    if |members| > 1 {
      SumMeaning(members[..|members| - 1], dimension, k);
    } else {
      assert Coordinate(members[..0], dimension, k) == 0.0;
    }
  }

  function Centroid(members: seq<Episode>, dimension: nat): Vector
    requires members != [] && Dimensioned(members, dimension)
  {
    Scaled(SumOf(members, dimension), |members|)
  }

  /** A centroid is the mean: in each coordinate the sum over the members, divided by their number. */
  lemma CentroidMeaning(members: seq<Episode>, dimension: nat, k: nat)
    requires members != [] && Dimensioned(members, dimension) && k < dimension
    ensures |Centroid(members, dimension)| == dimension
    ensures Centroid(members, dimension)[k] == Coordinate(members, dimension, k) / |members| as real
  {
    SumMeaning(members, dimension, k);
  }

  type Groups = seq<seq<Episode>>

  ghost predicate Filled(groups: Groups, dimension: nat) {
    forall c | 0 <= c < |groups| :: groups[c] != [] && Dimensioned(groups[c], dimension)
  }

  function Similarity(cos: Cosine, v: Vector, members: seq<Episode>, dimension: nat): real
    requires members != [] && Dimensioned(members, dimension)
  {
    cos(v, Centroid(members, dimension))
  }

  /** The first group with the greatest similarity above -1, among the first n. */
  function Nearest(cos: Cosine, groups: Groups, dimension: nat, v: Vector, n: nat): (r: (Option<nat>, real))
    requires n <= |groups| && Filled(groups, dimension)
    ensures r.0.Some? ==> r.0.value < n
  {
    if n == 0 then (None, -1.0)
    else
      var best := Nearest(cos, groups, dimension, v, n - 1);
      var sim := Similarity(cos, v, groups[n - 1], dimension);
      if sim > best.1 then (Some(n - 1), sim) else best
  }

  lemma {:induction false} NearestMeaning(cos: Cosine, groups: Groups, dimension: nat, v: Vector, n: nat)
    requires n <= |groups| && Filled(groups, dimension)
    ensures var (best, sim) := Nearest(cos, groups, dimension, v, n);
      && (forall c | 0 <= c < n :: Similarity(cos, v, groups[c], dimension) <= sim)
      && (best.None? ==> sim == -1.0)
      && (best.Some? ==> sim > -1.0 && sim == Similarity(cos, v, groups[best.value], dimension))
      && (best.Some? ==> forall c | 0 <= c < best.value :: Similarity(cos, v, groups[c], dimension) < sim)
  {
    if n > 0 {
      NearestMeaning(cos, groups, dimension, v, n - 1);
    }
  }

  /** The nearest cluster by the cosine of the episode's vector with the centroids. */
  lemma NearestByCosine(cos: Cosine, groups: Groups, dimension: nat, v: Vector)
    requires Filled(groups, dimension)
    ensures var (best, sim) := Nearest(cos, groups, dimension, v, |groups|);
      && (best.Some? ==> sim == cos(v, Centroid(groups[best.value], dimension)) > -1.0)
      && (forall c | 0 <= c < |groups| :: cos(v, Centroid(groups[c], dimension)) <= sim)
      && (best.None? ==> sim == -1.0)
  {
    NearestMeaning(cos, groups, dimension, v, |groups|);
    var sim := Nearest(cos, groups, dimension, v, |groups|).1;
    forall c | 0 <= c < |groups| ensures cos(v, Centroid(groups[c], dimension)) <= sim {
      assert Similarity(cos, v, groups[c], dimension) <= sim;
    }
  }

  function Cap(maxClusters: int): nat { if maxClusters < 1 then 1 else maxClusters }

  datatype Settings = Settings(cos: Cosine, dimension: nat, threshold: real, maxClusters: int)

  /** Where an episode goes: the index of a group, or one past the last for a new group. */
  function Home(s: Settings, groups: Groups, v: Vector): (c: nat)
    requires Filled(groups, s.dimension)
    ensures c <= |groups|
  {
    var (best, sim) := Nearest(s.cos, groups, s.dimension, v, |groups|);
    if best.Some? && (sim >= s.threshold || |groups| >= Cap(s.maxClusters)) then best.value else |groups|
  }

  function PutIn(groups: Groups, c: nat, e: Episode): Groups
    requires c <= |groups|
  {
    if c < |groups| then groups[c := groups[c] + [e]] else groups + [[e]]
  }

  function Clusters(s: Settings, episodes: seq<Episode>): (groups: Groups)
    requires Dimensioned(episodes, s.dimension)
    ensures Filled(groups, s.dimension)
  {
    if episodes == [] then []
    else
      var before, e := Clusters(s, episodes[..|episodes| - 1]), episodes[|episodes| - 1];
      PutIn(before, Home(s, before, e.embedding), e)
  }

  // ---- The clusters as objects ----

  class Cluster {
    var episodes: seq<Episode>
    var sum: Vector

    constructor ()
      ensures episodes == [] && sum == []
    {
      episodes, sum := [], [];
    }

    ghost predicate Valid(dimension: nat)
      reads this
    {
      && Dimensioned(episodes, dimension)
      && sum == if episodes == [] then [] else SumOf(episodes, dimension)
    }

    method Add(e: Episode, ghost dimension: nat)
      requires Valid(dimension) && Dimensioned([e], dimension)
      modifies this
      ensures Valid(dimension) && episodes == old(episodes) + [e]
    {
      assert e in [e] && (episodes + [e])[..|episodes|] == episodes;
      if |sum| == 0 {
        sum := e.embedding;
      } else {
        sum := Plus(sum, e.embedding);
      }
      episodes := episodes + [e];
    }

    method CentroidNow(ghost dimension: nat) returns (v: Vector)
      requires Valid(dimension) && episodes != []
      ensures v == Centroid(episodes, dimension)
    {
      v := Scaled(sum, |episodes|);
    }
  }

  /** The objects hold exactly the groups. */
  ghost predicate Holds(clusters: seq<Cluster>, groups: Groups, dimension: nat)
    reads clusters
  {
    && |clusters| == |groups| && Filled(groups, dimension)
    && forall c | 0 <= c < |clusters| :: clusters[c].Valid(dimension) && clusters[c].episodes == groups[c]
  }

  lemma NearestMore(cos: Cosine, groups: Groups, dimension: nat, v: Vector, i: nat)
    requires i < |groups| && Filled(groups, dimension)
    ensures var before, sim := Nearest(cos, groups, dimension, v, i), cos(v, Centroid(groups[i], dimension));
      Nearest(cos, groups, dimension, v, i + 1) == if sim > before.1 then (Some(i), sim) else before
  {
  }

  method NearestCluster(cos: Cosine, clusters: seq<Cluster>, v: Vector, ghost groups: Groups, ghost dimension: nat)
    returns (best: Option<nat>, bestSim: real)
    requires Holds(clusters, groups, dimension)
    ensures (best, bestSim) == Nearest(cos, groups, dimension, v, |groups|)
  {
    best, bestSim := None, -1.0;
    for i := 0 to |clusters|
      invariant (best, bestSim) == Nearest(cos, groups, dimension, v, i)
    {
      var centroid := clusters[i].CentroidNow(dimension);
      var sim := cos(v, centroid);
      NearestMore(cos, groups, dimension, v, i);
      if sim > bestSim {
        best, bestSim := Some(i), sim;
      }
    }
  }

  ghost predicate Distinct(clusters: seq<Cluster>) {
    forall i, j | 0 <= i < j < |clusters| :: clusters[i] != clusters[j]
  }

  lemma StaysFilled(groups: Groups, c: nat, e: Episode, dimension: nat)
    requires Filled(groups, dimension) && c <= |groups| && Dimensioned([e], dimension)
    ensures Filled(PutIn(groups, c, e), dimension)
  {
    assert e in [e];
  }

  method Join(clusters: seq<Cluster>, c: nat, e: Episode, ghost groups: Groups, ghost dimension: nat)
    requires Holds(clusters, groups, dimension) && Distinct(clusters) && Dimensioned([e], dimension)
    requires c < |clusters|
    modifies clusters[c]
    ensures Holds(clusters, PutIn(groups, c, e), dimension)
  {
    StaysFilled(groups, c, e, dimension);
    clusters[c].Add(e, dimension);
  }

  method Seed(clusters: seq<Cluster>, e: Episode, ghost groups: Groups, ghost dimension: nat) returns (seed: Cluster)
    requires Holds(clusters, groups, dimension) && Distinct(clusters) && Dimensioned([e], dimension)
    ensures fresh(seed) && Holds(clusters + [seed], PutIn(groups, |groups|, e), dimension)
  {
    StaysFilled(groups, |groups|, e, dimension);
    seed := new Cluster();
    seed.Add(e, dimension);
  }

  method Place(s: Settings, clusters: seq<Cluster>, e: Episode, ghost groups: Groups) returns (after: seq<Cluster>)
    requires Holds(clusters, groups, s.dimension) && Distinct(clusters) && Dimensioned([e], s.dimension)
    modifies clusters
    ensures Holds(after, PutIn(groups, Home(s, groups, e.embedding), e), s.dimension) && Distinct(after)
    ensures |clusters| <= |after| && forall i | 0 <= i < |after| :: if i < |clusters| then after[i] == clusters[i] else fresh(after[i])
  {
    var best, sim := NearestCluster(s.cos, clusters, e.embedding, groups, s.dimension);
    if best.Some? && (sim >= s.threshold || |clusters| >= Cap(s.maxClusters)) {
      Join(clusters, best.value, e, groups, s.dimension);
      after := clusters;
    } else {
      var seed := Seed(clusters, e, groups, s.dimension);
      after := clusters + [seed];
    }
  }

  method MemberLists(clusters: seq<Cluster>, ghost groups: Groups, ghost dimension: nat) returns (r: Groups)
    requires Holds(clusters, groups, dimension)
    ensures r == groups
  {
    r := seq(|clusters|, c requires 0 <= c < |clusters| reads clusters => clusters[c].episodes);
  }

  method ClusterEpisodes(s: Settings, episodes: seq<Episode>) returns (groups: Groups)
    requires Dimensioned(episodes, s.dimension)
    ensures groups == Clusters(s, episodes)
  {
    var clusters: seq<Cluster> := [];
    ghost var done: Groups := [];
    for i := 0 to |episodes|
      invariant Holds(clusters, done, s.dimension) && Distinct(clusters) && fresh(clusters)
      invariant done == Clusters(s, episodes[..i])
    {
      ClustersMore(s, episodes, i);
      clusters := Place(s, clusters, episodes[i], done);
      done := PutIn(done, Home(s, done, episodes[i].embedding), episodes[i]);
    }
    assert episodes[..|episodes|] == episodes;
    groups := MemberLists(clusters, done, s.dimension);
  }

  lemma ClustersMore(s: Settings, episodes: seq<Episode>, i: nat)
    requires Dimensioned(episodes, s.dimension) && i < |episodes|
    ensures Dimensioned([episodes[i]], s.dimension)
    ensures var before := Clusters(s, episodes[..i]);
      Clusters(s, episodes[..i + 1]) == PutIn(before, Home(s, before, episodes[i].embedding), episodes[i])
  {
    assert episodes[..i + 1][..i] == episodes[..i] && episodes[i] in episodes;
  }

  // ---- What a clustering is ----

  /** Where each episode went. */
  function Labels(s: Settings, episodes: seq<Episode>): (labels: seq<nat>)
    requires Dimensioned(episodes, s.dimension)
    ensures |labels| == |episodes|
  {
    if episodes == [] then []
    else
      var init := episodes[..|episodes| - 1];
      Labels(s, init) + [Home(s, Clusters(s, init), episodes[|episodes| - 1].embedding)]
  }

  /** The episodes with label c, in their order. */
  function Members(episodes: seq<Episode>, labels: seq<nat>, c: nat): seq<Episode>
    requires |labels| == |episodes|
  {
    if episodes == [] then []
    else
      var n := |episodes| - 1;
      Members(episodes[..n], labels[..n], c) + if labels[n] == c then [episodes[n]] else []
  }

  function Count(labels: seq<nat>): nat {
    if labels == [] then 0
    else
      var before, last := Count(labels[..|labels| - 1]), labels[|labels| - 1];
      if last >= before then last + 1 else before
  }

  /** Every label is one already in use or the next one: groups come in order of creation. */
  ghost predicate InCreationOrder(labels: seq<nat>) {
    forall i | 0 <= i < |labels| :: labels[i] <= Count(labels[..i])
  }

  lemma {:induction false} NobodyBeyond(episodes: seq<Episode>, labels: seq<nat>, c: nat)
    requires |labels| == |episodes| && c >= Count(labels)
    ensures Members(episodes, labels, c) == []
  {
    if episodes != [] {
      var n := |episodes| - 1;
      NobodyBeyond(episodes[..n], labels[..n], c);
    }
  }

  lemma {:induction false} ClustersFollowLabels(s: Settings, episodes: seq<Episode>)
    requires Dimensioned(episodes, s.dimension)
    ensures var groups, labels := Clusters(s, episodes), Labels(s, episodes);
      && |groups| == Count(labels)
      && (forall c | 0 <= c < |groups| :: groups[c] == Members(episodes, labels, c))
  {
    if episodes != [] {
      var n := |episodes| - 1;
      var init, labels := episodes[..n], Labels(s, episodes);
      ClustersFollowLabels(s, init);
      assert labels[..n] == Labels(s, init);
      var before := Clusters(s, init);
      var home := labels[n];
      NobodyBeyond(init, labels[..n], |before|);
      forall c | 0 <= c < |Clusters(s, episodes)| ensures Clusters(s, episodes)[c] == Members(episodes, labels, c) {
        if c != home { assert Members(episodes, labels, c) == Members(init, labels[..n], c); }
      }
    }
  }

  lemma {:induction false} LabelsGrow(s: Settings, episodes: seq<Episode>)
    requires Dimensioned(episodes, s.dimension)
    ensures InCreationOrder(Labels(s, episodes))
  {
    if episodes != [] {
      var n := |episodes| - 1;
      var labels := Labels(s, episodes);
      LabelsGrow(s, episodes[..n]);
      ClustersFollowLabels(s, episodes[..n]);
      assert labels[..n] == Labels(s, episodes[..n]);
      forall i | 0 <= i < n ensures labels[i] <= Count(labels[..i]) {
        assert labels[..n][..i] == labels[..i];
      }
    }
  }

  /** Clustering splits the episodes into non-empty groups, each in the episodes' order, the groups
      in order of creation. */
  lemma ClusteringIsAPartition(s: Settings, episodes: seq<Episode>)
    requires Dimensioned(episodes, s.dimension)
    ensures var groups, labels := Clusters(s, episodes), Labels(s, episodes);
      && (forall c | 0 <= c < |groups| :: groups[c] != [] && groups[c] == Members(episodes, labels, c))
      && (forall i | 0 <= i < |labels| :: labels[i] < |groups|)
      && InCreationOrder(labels)
  {
    ClustersFollowLabels(s, episodes);
    LabelsGrow(s, episodes);
    LabelsAreUsed(Labels(s, episodes));
  }

  lemma {:induction false} LabelsAreUsed(labels: seq<nat>)
    ensures forall i | 0 <= i < |labels| :: labels[i] < Count(labels)
  {
    if labels != [] {
      var n := |labels| - 1;
      LabelsAreUsed(labels[..n]);
      assert forall i | 0 <= i < n :: labels[i] == labels[..n][i];
    }
  }

  /** An episode joins the first most similar group when that similarity exceeds -1 and reaches the
      threshold or the cap is reached, and opens a new group otherwise. */
  lemma HomeMeaning(s: Settings, groups: Groups, v: Vector)
    requires Filled(groups, s.dimension)
    ensures var c := Home(s, groups, v);
      if c < |groups| then
        var sim := Similarity(s.cos, v, groups[c], s.dimension);
        && sim > -1.0 && (sim >= s.threshold || |groups| >= Cap(s.maxClusters))
        && (forall d | 0 <= d < |groups| :: Similarity(s.cos, v, groups[d], s.dimension) <= sim)
        && (forall d | 0 <= d < c :: Similarity(s.cos, v, groups[d], s.dimension) < sim)
      else
        || OppositeToAll(s, groups, v)
        || (|groups| < Cap(s.maxClusters) && forall d | 0 <= d < |groups| :: Similarity(s.cos, v, groups[d], s.dimension) < s.threshold)
  {
    NearestMeaning(s.cos, groups, s.dimension, v, |groups|);
  }

  // ---- The cap ----

  /** No centroid is more similar than -1: the search for the nearest one finds nothing. */
  ghost predicate OppositeToAll(s: Settings, groups: Groups, v: Vector)
    requires Filled(groups, s.dimension)
  {
    forall c | 0 <= c < |groups| :: Similarity(s.cos, v, groups[c], s.dimension) <= -1.0
  }

  /** Episode i arrives when the cap is reached and finds no centroid above -1. */
  ghost predicate Overflows(s: Settings, episodes: seq<Episode>, i: nat)
    requires Dimensioned(episodes, s.dimension) && i < |episodes|
  {
    var groups := Clusters(s, episodes[..i]);
    |groups| >= Cap(s.maxClusters) && OppositeToAll(s, groups, episodes[i].embedding)
  }

  lemma NothingNearIff(s: Settings, groups: Groups, v: Vector)
    requires Filled(groups, s.dimension)
    ensures Nearest(s.cos, groups, s.dimension, v, |groups|).0.None? <==> OppositeToAll(s, groups, v)
  {
    NearestMeaning(s.cos, groups, s.dimension, v, |groups|);
  }

  lemma {:induction false} CapHolds(s: Settings, episodes: seq<Episode>)
    requires Dimensioned(episodes, s.dimension)
    ensures |Clusters(s, episodes)| <= Cap(s.maxClusters) <==> forall i | 0 <= i < |episodes| :: !Overflows(s, episodes, i)
  {
    if episodes != [] {
      var n := |episodes| - 1;
      var init := episodes[..n];
      CapHolds(s, init);
      NothingNearIff(s, Clusters(s, init), episodes[n].embedding);
      assert |Clusters(s, episodes)| <= Cap(s.maxClusters) <==> |Clusters(s, init)| <= Cap(s.maxClusters) && !Overflows(s, episodes, n);
      forall i | 0 <= i < n ensures Overflows(s, episodes, i) <==> Overflows(s, init, i) {
        assert init[..i] == episodes[..i];
      }
    }
  }

  /** There are at most max_clusters clusters, or one if that is less than one, exactly when no episode overflows. */
  lemma CapHoldsIff(s: Settings, episodes: seq<Episode>)
    requires Dimensioned(episodes, s.dimension)
    ensures |Clusters(s, episodes)| <= (if s.maxClusters < 1 then 1 else s.maxClusters)
      <==> forall i | 0 <= i < |episodes| :: !Overflows(s, episodes, i)
  {
    CapHolds(s, episodes);
  }

  /** In particular, two opposite vectors make two clusters even under a cap of one. */
  lemma OppositeVectorsBreakTheCap(cos: Cosine, threshold: real)
    requires cos([-1.0], [1.0]) <= -1.0
    ensures var s := Settings(cos, 1, threshold, 1);
      var episodes := [Episode("a", [1.0]), Episode("b", [-1.0])];
      Dimensioned(episodes, 1) && |Clusters(s, episodes)| == 2
  {
    var s := Settings(cos, 1, threshold, 1);
    var a, b := Episode("a", [1.0]), Episode("b", [-1.0]);
    var episodes := [a, b];
    assert episodes[..1] == [a] && [a][..0] == [];
    assert Clusters(s, [a]) == [[a]];
    assert Scaled([1.0], 1) == [1.0];
    assert OppositeToAll(s, [[a]], [-1.0]);
    NearestMeaning(cos, [[a]], 1, [-1.0], 1);
  }
}
