/** The semantic merge pass over the fact and edge tables (brain/memory/decay.py). */
module SemanticMerge {
  import opened FactGroups
  import opened EdgeQuotient

  /** The ids merged away by a group, each sent to the group's first member. */
  function GroupRedirection(group: seq<Fact>): (r: Redirection)
    requires group != []
  {
    map f | f in group[1..] :: f.id := group[0].id
  }

  function Redirect(groups: seq<seq<Fact>>): (r: Redirection)
    requires forall g | 0 <= g < |groups| :: groups[g] != []
  {
    if groups == [] then map[]
    else Redirect(groups[..|groups| - 1]) + GroupRedirection(groups[|groups| - 1])
  }

  ghost predicate Dup(groups: seq<seq<Fact>>, g: nat, f: Fact) {
    g < |groups| && groups[g] != [] && f in groups[g][1..]
  }

  lemma {:induction false} RedirectFrom(groups: seq<seq<Fact>>, x: nat) returns (g: nat, f: Fact)
    requires forall g | 0 <= g < |groups| :: groups[g] != []
    requires x in Redirect(groups)
    ensures Dup(groups, g, f) && f.id == x && Redirect(groups)[x] == groups[g][0].id
  {
    var n := |groups| - 1;
    if x in GroupRedirection(groups[n]) {
      g := n;
      f :| f in groups[n][1..] && f.id == x;
    } else {
      g, f := RedirectFrom(groups[..n], x);
    }
  }

  lemma NotMovedElsewhere(groups: seq<seq<Fact>>, g: nat, h: nat, f: Fact)
    requires Apart(groups) && g < |groups| && h < |groups| && g != h
    requires groups[h] != [] && f in groups[g]
    ensures f.id !in GroupRedirection(groups[h])
  {
    forall d | d in groups[h][1..] ensures d.id != f.id {
      assert d in groups[h];
    }
  }

  lemma {:induction false} RedirectTo(groups: seq<seq<Fact>>, g: nat, f: Fact)
    requires forall h | 0 <= h < |groups| :: groups[h] != []
    requires Apart(groups) && Dup(groups, g, f)
    ensures f.id in Redirect(groups) && Redirect(groups)[f.id] == groups[g][0].id
  {
    var n := |groups| - 1;
    if g == n {
      assert f.id in GroupRedirection(groups[n]);
    } else {
      assert groups[..n][g] == groups[g] && f in groups[g];
      NotMovedElsewhere(groups, g, n, f);
      RedirectTo(groups[..n], g, f);
    }
  }

  function AllSources(facts: seq<Fact>): set<int> {
    if facts == [] then {} else AllSources(facts[..|facts| - 1]) + facts[|facts| - 1].sources
  }

  lemma {:induction false} AllSourcesMeaning(facts: seq<Fact>)
    ensures forall e :: e in AllSources(facts) <==> exists f :: f in facts && e in f.sources
  {
    if facts != [] {
      var n := |facts| - 1;
      assert facts == facts[..n] + [facts[n]];
      AllSourcesMeaning(facts[..n]);
    }
  }

  function Ids(facts: seq<Fact>): set<nat> {
    if facts == [] then {} else Ids(facts[..|facts| - 1]) + {facts[|facts| - 1].id}
  }

  lemma {:induction false} IdsMeaning(facts: seq<Fact>)
    ensures forall x :: x in Ids(facts) <==> exists f :: f in facts && f.id == x
  {
    if facts != [] {
      var n := |facts| - 1;
      assert facts == facts[..n] + [facts[n]];
      IdsMeaning(facts[..n]);
    }
  }

  function MaxConfidence(facts: seq<Fact>): real
    requires facts != []
  {
    var n := |facts| - 1;
    if n == 0 then facts[0].confidence
    else
      var m := MaxConfidence(facts[..n]);
      if m < facts[n].confidence then facts[n].confidence else m
  }

  lemma {:induction false} MaxConfidenceMeaning(facts: seq<Fact>)
    requires facts != []
    ensures IsMaxConfidence(facts, MaxConfidence(facts))
  {
    var n := |facts| - 1;
    var init, last := facts[..n], facts[n];
    assert facts == init + [last];
    if n > 0 {
      MaxConfidenceMeaning(init);
      MoreConfident(init, last, MaxConfidence(init));
    } else {
      assert last in facts && init == [];
    }
  }

  /** Some fact has this confidence and none has more. */
  ghost predicate IsMaxConfidence(facts: seq<Fact>, c: real) {
    && (exists f :: f in facts && f.confidence == c)
    && forall f | f in facts :: f.confidence <= c
  }

  lemma MoreConfident(init: seq<Fact>, last: Fact, c: real)
    requires IsMaxConfidence(init, c)
    ensures IsMaxConfidence(init + [last], if c < last.confidence then last.confidence else c)
  {
    var all := init + [last];
    assert last in all;
    var best: Fact :| best in init && best.confidence == c;
    assert best in all;
    forall f | f in all ensures f == last || f in init {}
  }

  /** The fact a group collapses to: its first member with the union of the provenance and the
      greatest confidence of the group. */
  ghost function Merged(group: seq<Fact>): Fact
    requires group != []
  {
    group[0].(sources := AllSources(group), confidence := MaxConfidence(group))
  }

  /** The facts of a table in primary-key order. */
  ghost predicate IsListing(listing: seq<Fact>, facts: map<nat, Fact>) {
    && Increasing(listing)
    && forall f :: f in listing <==> f.id in facts && facts[f.id] == f
  }

  /** The constraints of the two tables: primary key, unique edge key, foreign keys. */
  ghost predicate Consistent(facts: map<nat, Fact>, edges: map<nat, Edge>) {
    && (forall x | x in facts :: facts[x].id == x)
    && UniqueKeys(edges)
    && (forall i | i in edges :: edges[i].from in facts && edges[i].to in facts)
  }

  class MemoryDecay {
    const sim: Similarity
    var facts: map<nat, Fact>  // semantic_fact, by id
    var edges: map<nat, Edge>  // semantic_edge, by row id

    ghost predicate Valid()
      reads this
    {
      Consistent(facts, edges)
    }

    constructor (sim: Similarity, facts: map<nat, Fact>, edges: map<nat, Edge>)
      ensures this.sim == sim && this.facts == facts && this.edges == edges
    {
      this.sim, this.facts, this.edges := sim, facts, edges;
    }

    /** Sorts the rows into those naming a duplicate and the keys of the others. */
    method SplitEdges(dups: set<nat>) returns (affected: set<nat>, existing: set<Edge>)
      ensures affected == set i | i in edges && Touches(dups, edges[i])
      ensures existing == set i | i in edges && !Touches(dups, edges[i]) :: edges[i]
    {
      existing, affected := {}, {};
      var rows := edges.Keys;
      while rows != {}
        invariant rows <= edges.Keys
        invariant affected == set i | i in edges && i !in rows && Touches(dups, edges[i])
        invariant existing == set i | i in edges && i !in rows && !Touches(dups, edges[i]) :: edges[i]
      {
        var i :| i in rows;
        rows := rows - {i};
        if Touches(dups, edges[i]) {
          affected := affected + {i};
        } else {
          existing := existing + {edges[i]};
        }
      }
    }

    /** Re-aims every edge that names a duplicate. The rows come back in no particular order. */
    method RepointEdges(dups: set<nat>, survivor: nat)
      requires survivor !in dups
      requires UniqueKeys(edges)
      modifies this`edges
      ensures UniqueKeys(edges)
      ensures Repointed(old(edges), edges, dups, Onto(dups, survivor))
      ensures edges.Values == Quotient(old(edges.Values), Onto(dups, survivor))
    {
      ghost var before, r := edges, Onto(dups, survivor);
      var affected, existing := SplitEdges(dups);
      while affected != {}
        invariant Halfway(before, edges, affected, existing, dups, r)
      {
        var i :| i in affected;
        var newFrom := if edges[i].from in dups then survivor else edges[i].from;
        var newTo := if edges[i].to in dups then survivor else edges[i].to;
        var key := Edge(newFrom, newTo, edges[i].relation);
        if newFrom == newTo || key in existing {
          RepointDrop(before, edges, affected, existing, dups, r, i);
          edges := edges - {i};
        } else {
          RepointKeep(before, edges, affected, existing, dups, r, i);
          edges := edges[i := key];
          existing := existing + {key};
        }
        affected := affected - {i};
      }
      RepointDone(before, edges, existing, dups, r);
    }

    /** Deletes one fact row; the foreign keys delete the edges that name it. */
    method DeleteFact(x: nat)
      modifies this
      ensures facts == old(facts) - {x}
      ensures edges == Cascade(old(edges), x)
    {
      facts := facts - {x};
      edges := Cascade(edges, x);
    }

    /** Deletes the given rows, in any order. When no edge names one of them, the cascade
        removes nothing. */
    method DeleteFacts(ids: set<nat>)
      requires ids <= facts.Keys
      requires forall i | i in edges :: !Touches(ids, edges[i])
      modifies this
      ensures facts == old(facts) - ids
      ensures edges == old(edges)
      ensures |facts| + |ids| == |old(facts)|
    {
      var left := ids;
      while left != {}
        invariant left <= ids
        invariant edges == old(edges)
        invariant facts == old(facts) - (ids - left)
        invariant |facts| + |ids| == |old(facts)| + |left|
      {
        var x :| x in left;
        DropOne(old(facts), ids, left, x);
        NothingCascades(edges, ids, x);
        DeleteFact(x);
        left := left - {x};
      }
    }

    /** Collapses one group onto its first member. The cascade of the deletes removes no edge:
        every edge has been re-aimed before. */
    method MergeGroup(group: seq<Fact>) returns (count: nat)
      requires Valid() && group != [] && Increasing(group)
      requires forall f | f in group :: f.id in facts && facts[f.id] == f
      modifies this
      ensures Valid()
      ensures facts == Collapsing(old(facts), group)
      ensures edges.Values == Quotient(old(edges.Values), GroupRedirection(group))
      ensures |facts| + count == |old(facts)|
    {
      if |group| == 1 {
        LoneGroup(group, facts);
        NothingMoved(edges.Values);
        return 0;
      }
      var merged := Collapse(group);
      var ids := Ids(group[1..]);
      GroupReady(group, facts);
      Absorb(group[0].id, merged, ids);
      count := |group| - 1;
    }

    /** The fact rows in primary-key order. */
    method SelectFacts() returns (listing: seq<Fact>)
      requires Valid()
      ensures IsListing(listing, facts)
    {
      listing := [];
      var left := facts.Keys;
      while left != {}
        invariant Listed(facts, left, listing)
      {
        ghost var least := HasLeast(left);
        var x :| x in left && forall y | y in left :: x <= y;
        ListedStep(facts, left, listing, x);
        left := left - {x};
        listing := listing + [facts[x]];
      }
    }

    /** Merges every group in turn; returns the number of facts merged away. */
    method MergeFacts() returns (merged: nat, ghost listing: seq<Fact>)
      requires Valid()
      modifies this
      ensures Valid()
      ensures IsListing(listing, old(facts))
      ensures Collapsed(Groups(sim, listing), old(facts), facts)
      ensures edges.Values == Quotient(old(edges.Values), Redirect(Groups(sim, listing)))
      ensures |facts| + merged == |old(facts)|
    {
      var rows := SelectFacts();
      listing := rows;
      var groups := DuplicateFactGroups(sim, rows);
      GroupsPartitionTheFacts(sim, rows);
      merged := 0;
      StartMerging(groups, rows, facts);
      NothingMoved(edges.Values);
      for g := 0 to |groups|
        invariant Valid()
        invariant Merging(groups, g, old(facts), facts)
        invariant edges.Values == Quotient(old(edges.Values), Redirect(groups[..g]))
        invariant |facts| + merged == |old(facts)|
      {
        MergingStep(groups, g, old(facts), facts);
        QuotientStep(groups, g, old(edges.Values));
        var count := MergeGroup(groups[g]);
        merged := merged + count;
      }
      assert groups[..|groups|] == groups;
    }

    /** Stores the merged fact, re-aims the edges of the duplicates and deletes their rows. */
    method Absorb(survivor: nat, merged: Fact, ids: set<nat>)
      requires Valid() && merged.id == survivor && survivor in facts
      requires ids <= facts.Keys && survivor !in ids
      modifies this
      ensures Valid()
      ensures facts == (old(facts) - ids)[survivor := merged]
      ensures edges.Values == Quotient(old(edges.Values), Onto(ids, survivor))
      ensures |facts| + |ids| == |old(facts)|
    {
      facts := facts[survivor := merged];
      RepointEdges(ids, survivor);
      StillConsistent(old(facts), old(edges), edges, merged, ids);
      DeleteFacts(ids);
    }
  }

  /** The rows read so far, smallest ids first. */
  ghost predicate Listed(facts: map<nat, Fact>, left: set<nat>, listing: seq<Fact>) {
    && left <= facts.Keys
    && Increasing(listing)
    && (forall f, x | f in listing && x in left :: f.id < x)
    && (forall f :: f in listing <==> f.id in facts && f.id !in left && facts[f.id] == f)
  }

  lemma ListedStep(facts: map<nat, Fact>, left: set<nat>, listing: seq<Fact>, x: nat)
    requires Listed(facts, left, listing)
    requires x in left && facts[x].id == x && forall y | y in left :: x <= y
    ensures Listed(facts, left - {x}, listing + [facts[x]])
  {
    AppendKeepsIncreasing(listing, facts[x]);
  }

  lemma HasLeast(s: set<nat>) returns (least: nat)
    requires s != {}
    ensures least in s && forall y | y in s :: least <= y
  {
    var x :| x in s;
    var rest := s - {x};
    assert forall y | y in s :: y == x || y in rest;
    if rest == {} {
      least := x;
    } else {
      var other := HasLeast(rest);
      least := if other < x then other else x;
    }
  }

  /** The fact table once the first g groups have collapsed. */
  ghost predicate Merging(groups: seq<seq<Fact>>, g: nat, before: map<nat, Fact>, now: map<nat, Fact>) {
    && g <= |groups|
    && (forall h | 0 <= h < |groups| :: groups[h] != [])
    && now.Keys == before.Keys - Redirect(groups[..g]).Keys
    && (forall h | 0 <= h < g :: groups[h][0].id in now && now[groups[h][0].id] == Merged(groups[h]))
    && (forall h, f | g <= h < |groups| && f in groups[h] :: f.id in now && now[f.id] == f)
  }

  /** The fact table after the pass: the survivors, each with what its group held. */
  ghost predicate Collapsed(groups: seq<seq<Fact>>, before: map<nat, Fact>, after: map<nat, Fact>) {
    && (forall h | 0 <= h < |groups| :: groups[h] != [])
    && after.Keys == before.Keys - Redirect(groups).Keys
    && (forall h | 0 <= h < |groups| :: groups[h][0].id in after && after[groups[h][0].id] == Merged(groups[h]))
  }

  lemma StartMerging(groups: seq<seq<Fact>>, listing: seq<Fact>, facts: map<nat, Fact>)
    requires IsPartition(groups, listing) && IsListing(listing, facts)
    ensures Merging(groups, 0, facts, facts)
  {
    forall h, f: Fact | 0 <= h < |groups| && f in groups[h] ensures f.id in facts && facts[f.id] == f {
      assert InSome(groups, f);
    }
  }

  /** What MergeGroup does to the fact table. */
  ghost function Collapsing(now: map<nat, Fact>, group: seq<Fact>): map<nat, Fact>
    requires group != []
  {
    (now - GroupRedirection(group).Keys)[group[0].id := Merged(group)]
  }

  lemma OthersStay(groups: seq<seq<Fact>>, g: nat, now: map<nat, Fact>, h: nat, f: Fact)
    requires Apart(groups) && g < |groups| && h < |groups| && g != h
    requires groups[g] != [] && f in groups[h] && f.id in now
    ensures f.id in Collapsing(now, groups[g]) && Collapsing(now, groups[g])[f.id] == now[f.id]
  {
    NotMovedElsewhere(groups, h, g, f);
    assert groups[g][0] in groups[g];
  }

  lemma CollapsingKeys(now: map<nat, Fact>, group: seq<Fact>)
    requires group != [] && Increasing(group) && group[0].id in now
    ensures Collapsing(now, group).Keys == now.Keys - GroupRedirection(group).Keys
  {
    assert group[0].id !in GroupRedirection(group);
  }

  lemma MergingStep(groups: seq<seq<Fact>>, g: nat, before: map<nat, Fact>, now: map<nat, Fact>)
    requires Merging(groups, g, before, now) && g < |groups|
    requires Apart(groups) && Increasing(groups[g])
    ensures Merging(groups, g + 1, before, Collapsing(now, groups[g]))
  {
    assert groups[g][0] in groups[g];
    KeysStep(groups, g, before, now);
    EarlierStay(groups, g, before, now);
    LaterStay(groups, g, before, now);
  }

  lemma KeysStep(groups: seq<seq<Fact>>, g: nat, before: map<nat, Fact>, now: map<nat, Fact>)
    requires g < |groups| && forall h | 0 <= h < |groups| :: groups[h] != []
    requires now.Keys == before.Keys - Redirect(groups[..g]).Keys
    requires Increasing(groups[g]) && groups[g][0].id in now
    ensures Collapsing(now, groups[g]).Keys == before.Keys - Redirect(groups[..g + 1]).Keys
  {
    RedirectSnoc(groups, g);
    CollapsingKeys(now, groups[g]);
  }

  lemma EarlierStay(groups: seq<seq<Fact>>, g: nat, before: map<nat, Fact>, now: map<nat, Fact>)
    requires Merging(groups, g, before, now) && g < |groups| && Apart(groups)
    ensures var next := Collapsing(now, groups[g]);
      forall h | 0 <= h <= g :: groups[h][0].id in next && next[groups[h][0].id] == Merged(groups[h])
  {
    forall h | 0 <= h < g
      ensures groups[h][0].id in Collapsing(now, groups[g])
      ensures Collapsing(now, groups[g])[groups[h][0].id] == Merged(groups[h])
    {
      OthersStay(groups, g, now, h, groups[h][0]);
    }
  }

  lemma LaterStay(groups: seq<seq<Fact>>, g: nat, before: map<nat, Fact>, now: map<nat, Fact>)
    requires Merging(groups, g, before, now) && g < |groups| && Apart(groups)
    ensures var next := Collapsing(now, groups[g]);
      forall h, f | g < h < |groups| && f in groups[h] :: f.id in next && next[f.id] == f
  {
    forall h, f: Fact | g < h < |groups| && f in groups[h]
      ensures f.id in Collapsing(now, groups[g]) && Collapsing(now, groups[g])[f.id] == f
    {
      OthersStay(groups, g, now, h, f);
    }
  }

  lemma RedirectSnoc(groups: seq<seq<Fact>>, g: nat)
    requires g < |groups| && forall h | 0 <= h < |groups| :: groups[h] != []
    ensures Redirect(groups[..g + 1]) == Redirect(groups[..g]) + GroupRedirection(groups[g])
  {
    assert groups[..g + 1][..g] == groups[..g];
  }

  lemma GroupsAreIndependent(groups: seq<seq<Fact>>, n: nat)
    requires n < |groups| && Apart(groups)
    requires forall g | 0 <= g < |groups| :: groups[g] != [] && Increasing(groups[g])
    ensures Independent(Redirect(groups[..n]), GroupRedirection(groups[n]))
  {
    var p, r := Redirect(groups[..n]), GroupRedirection(groups[n]);
    forall x | x in p ensures x !in r && p[x] !in r && x != groups[n][0].id {
      var g, f := RedirectFrom(groups[..n], x);
      assert f in groups[g] && groups[g][0] in groups[g] && groups[n][0] in groups[n];
      NotMovedElsewhere(groups, g, n, f);
      NotMovedElsewhere(groups, g, n, groups[g][0]);
    }
  }

  lemma QuotientStep(groups: seq<seq<Fact>>, g: nat, edges: set<Edge>)
    requires g < |groups| && Apart(groups)
    requires forall g | 0 <= g < |groups| :: groups[g] != [] && Increasing(groups[g])
    ensures Quotient(Quotient(edges, Redirect(groups[..g])), GroupRedirection(groups[g])) == Quotient(edges, Redirect(groups[..g + 1]))
  {
    RedirectSnoc(groups, g);
    GroupsAreIndependent(groups, g);
    QuotientsCompose(edges, Redirect(groups[..g]), GroupRedirection(groups[g]));
  }

  lemma StillConsistent(facts: map<nat, Fact>, before: map<nat, Edge>, after: map<nat, Edge>, merged: Fact, ids: set<nat>)
    requires Consistent(facts, before) && merged.id in facts && merged.id !in ids
    requires UniqueKeys(after) && Repointed(before, after, ids, Onto(ids, merged.id))
    ensures forall i | i in after :: !Touches(ids, after[i])
    ensures Consistent((facts - ids)[merged.id := merged], after)
    ensures facts[merged.id := merged] - ids == (facts - ids)[merged.id := merged]
    ensures ids <= facts[merged.id := merged].Keys <==> ids <= facts.Keys
    ensures |facts[merged.id := merged]| == |facts|
  {
    RepointedAvoids(before, after, ids, Onto(ids, merged.id));
  }

  lemma GroupReady(group: seq<Fact>, facts: map<nat, Fact>)
    requires group != [] && Increasing(group)
    requires forall f | f in group :: f.id in facts
    ensures var ids := Ids(group[1..]);
      && Onto(ids, group[0].id) == GroupRedirection(group)
      && ids <= facts.Keys && group[0].id in facts && group[0].id !in ids
      && |ids| == |group| - 1
  {
    GroupIds(group, facts);
    IdsCount(group[1..]);
  }

  lemma {:induction false} IdsCount(facts: seq<Fact>)
    requires Increasing(facts)
    ensures |Ids(facts)| == |facts|
  {
    if facts != [] {
      IdsCount(facts[..|facts| - 1]);
      IdsMeaning(facts[..|facts| - 1]);
    }
  }

  lemma GroupIds(group: seq<Fact>, facts: map<nat, Fact>)
    requires group != [] && Increasing(group)
    requires forall f | f in group :: f.id in facts
    ensures var ids := Ids(group[1..]);
      && GroupRedirection(group) == Onto(ids, group[0].id)
      && ids <= facts.Keys && group[0].id in facts && group[0].id !in ids
  {
    IdsMeaning(group[1..]);
    assert GroupRedirection(group).Keys == Ids(group[1..]);
  }

  lemma LoneGroup(group: seq<Fact>, facts: map<nat, Fact>)
    requires |group| == 1 && group[0].id in facts && facts[group[0].id] == group[0]
    ensures GroupRedirection(group) == map[]
    ensures facts == Collapsing(facts, group)
  {
    assert group[..0] == [];
    assert AllSources(group) == AllSources([]) + group[0].sources;
    assert Merged(group) == group[0];
  }

  lemma DropOne(facts: map<nat, Fact>, ids: set<nat>, left: set<nat>, x: nat)
    requires x in left && left <= ids <= facts.Keys
    ensures (facts - (ids - left)) - {x} == facts - (ids - (left - {x}))
    ensures |facts - (ids - left)| == |facts - (ids - (left - {x}))| + 1
  {
    var a, b := facts - (ids - left), facts - (ids - (left - {x}));
    assert a.Keys == b.Keys + {x};
    assert |a.Keys| == |a| && |b.Keys| == |b|;
  }

  /** Folds the duplicates of a group into its first member. */
  method Collapse(group: seq<Fact>) returns (merged: Fact)
    requires group != []
    ensures merged == Merged(group)
  {
    var survivor, dups := group[0], group[1..];
    var provenance, confidence := survivor.sources, survivor.confidence;
    for i := 0 to |dups|
      invariant provenance == AllSources(group[..i + 1])
      invariant confidence == MaxConfidence(group[..i + 1])
    {
      assert group[..i + 2][..i + 1] == group[..i + 1];
      provenance := provenance + dups[i].sources;
      confidence := if confidence < dups[i].confidence then dups[i].confidence else confidence;
    }
    assert group[..|dups| + 1] == group;
    merged := survivor.(sources := provenance, confidence := confidence);
  }

  /** Between two edges of the re-pointing loop: the rows still waiting are as before, the others
      have their final keys, and those keys are the ones collected. */
  ghost predicate Halfway(before: map<nat, Edge>, now: map<nat, Edge>, waiting: set<nat>,
                          collected: set<Edge>, dups: set<nat>, r: Redirection)
  {
    && now.Keys <= before.Keys
    && (forall i | i in waiting :: i in now && now[i] == before[i] && Touches(dups, before[i]))
    && (forall i | i in before && !Touches(dups, before[i]) :: i in now && now[i] == before[i])
    && (forall i | i in now && i !in waiting && Touches(dups, before[i]) :: now[i] == Move(r, before[i]) && Kept(r, before[i]))
    && (forall i | i in before && i !in waiting && Kept(r, before[i]) :: Move(r, before[i]) in collected)
    && Collected(now, waiting, collected)
  }

  /** The rows that no longer wait have distinct keys, and those are the collected ones. */
  ghost predicate Collected(now: map<nat, Edge>, waiting: set<nat>, collected: set<Edge>) {
    && (forall i | i in now && i !in waiting :: now[i] in collected)
    && (forall e | e in collected :: exists i :: i in now && i !in waiting && now[i] == e)
    && (forall i, j | i in now && j in now && i !in waiting && j !in waiting && now[i] == now[j] :: i == j)
  }

  lemma CollectOne(now: map<nat, Edge>, waiting: set<nat>, collected: set<Edge>, i: nat, key: Edge)
    requires Collected(now, waiting, collected) && i in waiting && key !in collected
    ensures Collected(now[i := key], waiting - {i}, collected + {key})
  {
    var next := now[i := key];
    forall e | e in collected + {key} ensures exists j :: j in next && j !in waiting - {i} && next[j] == e {
      if e == key {
        assert next[i] == e;
      } else {
        var j :| j in now && j !in waiting && now[j] == e;
        assert next[j] == e;
      }
    }
  }

  lemma RepointDrop(before: map<nat, Edge>, now: map<nat, Edge>, waiting: set<nat>,
                    collected: set<Edge>, dups: set<nat>, r: Redirection, i: nat)
    requires Halfway(before, now, waiting, collected, dups, r)
    requires i in waiting && r.Keys == dups && r.Values !! dups
    requires var key := Move(r, now[i]); key.from == key.to || key in collected
    ensures Halfway(before, now - {i}, waiting - {i}, collected, dups, r)
  {
    assert Move(r, now[i]).from == Move(r, now[i]).to ==> !Kept(r, before[i]);
    forall e | e in collected ensures exists j :: j in now - {i} && j !in waiting - {i} && (now - {i})[j] == e {
      var j :| j in now && j !in waiting && now[j] == e;
      assert j in now - {i};
    }
  }

  lemma RepointKeep(before: map<nat, Edge>, now: map<nat, Edge>, waiting: set<nat>,
                    collected: set<Edge>, dups: set<nat>, r: Redirection, i: nat)
    requires Halfway(before, now, waiting, collected, dups, r)
    requires i in waiting && r.Keys == dups && r.Values !! dups
    requires var key := Move(r, now[i]); key.from != key.to && key !in collected
    ensures var key := Move(r, now[i]); Halfway(before, now[i := key], waiting - {i}, collected + {key}, dups, r)
  {
    CollectOne(now, waiting, collected, i, Move(r, now[i]));
  }

  lemma RepointDone(before: map<nat, Edge>, now: map<nat, Edge>, collected: set<Edge>, dups: set<nat>, r: Redirection)
    requires Halfway(before, now, {}, collected, dups, r)
    requires r.Keys == dups
    ensures now.Values == Quotient(before.Values, r)
  {
    assert now.Values == collected;
    forall i | i in now ensures Kept(r, before[i]) && Move(r, before[i]) == now[i] {
    }
  }

  // ---- What the pass means ----

  /** Every fact, merged away or not, is sent to the first member of its group. */
  lemma SurvivorOf(sim: Similarity, listing: seq<Fact>, g: nat, f: Fact)
    requires Increasing(listing)
    requires g < |Groups(sim, listing)| && f in Groups(sim, listing)[g]
    ensures Apply(Redirect(Groups(sim, listing)), f.id) == Groups(sim, listing)[g][0].id
  {
    GroupsPartitionTheFacts(sim, listing);
    MemberGoesToHead(Groups(sim, listing), g, f);
  }

  lemma MemberGoesToHead(groups: seq<seq<Fact>>, g: nat, f: Fact)
    requires forall h | 0 <= h < |groups| :: groups[h] != [] && Increasing(groups[h])
    requires Apart(groups) && g < |groups| && f in groups[g]
    ensures Apply(Redirect(groups), f.id) == groups[g][0].id
  {
    if f == groups[g][0] {
      HeadStays(groups, g);
    } else {
      RedirectTo(groups, g, f);
    }
  }

  lemma HeadStays(groups: seq<seq<Fact>>, g: nat)
    requires forall h | 0 <= h < |groups| :: groups[h] != [] && Increasing(groups[h])
    requires Apart(groups) && g < |groups|
    ensures groups[g][0].id !in Redirect(groups)
  {
    if groups[g][0].id in Redirect(groups) {
      var h, d := RedirectFrom(groups, groups[g][0].id);
      if h == g {
        LaterIsNotHead(groups[g], d);
      } else {
        NotMovedElsewhere(groups, g, h, groups[g][0]);
      }
    }
  }

  lemma LaterIsNotHead(group: seq<Fact>, d: Fact)
    requires group != [] && Increasing(group) && d in group[1..]
    ensures d.id != group[0].id
  {
  }

  /** A fact row outlives the pass exactly when it is the first member of its group. */
  lemma SurvivorsAreFirstMembers(sim: Similarity, listing: seq<Fact>, before: map<nat, Fact>, after: map<nat, Fact>, x: nat)
    requires IsListing(listing, before) && forall y | y in before :: before[y].id == y
    requires Collapsed(Groups(sim, listing), before, after)
    ensures x in after <==> exists g :: 0 <= g < |Groups(sim, listing)| && Groups(sim, listing)[g][0].id == x
  {
    var groups := Groups(sim, listing);
    GroupsPartitionTheFacts(sim, listing);
    if x in after {
      assert before[x] in listing && InSome(groups, before[x]);
      var g :| 0 <= g < |groups| && before[x] in groups[g];
      SurvivorOf(sim, listing, g, before[x]);
    }
  }

  ghost function TableSources(facts: map<nat, Fact>): set<int> {
    set x, e | x in facts && e in facts[x].sources :: e
  }

  /** The episodes some fact was distilled from are the same before and after. */
  lemma ProvenanceIsPreserved(sim: Similarity, listing: seq<Fact>, before: map<nat, Fact>, after: map<nat, Fact>)
    requires IsListing(listing, before) && forall y | y in before :: before[y].id == y
    requires Collapsed(Groups(sim, listing), before, after)
    ensures TableSources(after) == TableSources(before)
  {
    var groups: seq<seq<Fact>> := Groups(sim, listing);
    GroupsPartitionTheFacts(sim, listing);
    forall e | e in TableSources(before) ensures e in TableSources(after) {
      var x :| x in before && e in before[x].sources;
      assert before[x] in listing && InSome(groups, before[x]);
      var g :| 0 <= g < |groups| && before[x] in groups[g];
      AllSourcesMeaning(groups[g]);
      assert e in after[groups[g][0].id].sources;
    }
    forall e | e in TableSources(after) ensures e in TableSources(before) {
      var x :| x in after && e in after[x].sources;
      SurvivorsAreFirstMembers(sim, listing, before, after, x);
      var g :| 0 <= g < |groups| && groups[g][0].id == x;
      AllSourcesMeaning(groups[g]);
      var f: Fact :| f in groups[g] && e in f.sources;
      assert InSome(groups, f) && f.id in before;
    }
  }

  /** The charged episodes are those that some fact of the table was distilled from. */
  lemma TableSourcesMeaning(facts: map<nat, Fact>)
    ensures forall e :: e in TableSources(facts) <==> exists x :: x in facts && e in facts[x].sources
  {
  }

  /** Two survivors, in the order a pass would compare them, are below the threshold. */
  lemma SurvivorsAreApart(sim: Similarity, listing: seq<Fact>, before: map<nat, Fact>, after: map<nat, Fact>, x: nat, y: nat)
    requires IsListing(listing, before) && forall z | z in before :: before[z].id == z
    requires Collapsed(Groups(sim, listing), before, after)
    requires x in after && y in after && x < y
    ensures sim.cosine(after[y].embedding, after[x].embedding) < sim.threshold
  {
    var groups: seq<seq<Fact>> := Groups(sim, listing);
    GroupsPartitionTheFacts(sim, listing);
    HeadsIncrease(sim, listing);
    SurvivorsAreFirstMembers(sim, listing, before, after, x);
    SurvivorsAreFirstMembers(sim, listing, before, after, y);
    var g :| 0 <= g < |groups| && groups[g][0].id == x;
    var h :| 0 <= h < |groups| && groups[h][0].id == y;
    assert groups[h][0] in groups[h];
    assert !sim.Near(groups[h][0], groups[g][0]);
    NearMeaning(sim, groups[h][0], groups[g][0]);
    assert after[x].embedding == groups[g][0].embedding && after[y].embedding == groups[h][0].embedding;
  }

  /** A table of two facts: the later one is merged away if and only if its cosine with the earlier one reaches
      the threshold, and the earlier one then has the sources of both and the greater confidence. */
  lemma TwoFactsMergeIff(sim: Similarity, a: Fact, b: Fact, before: map<nat, Fact>, after: map<nat, Fact>)
    requires a.id < b.id && before == map[a.id := a, b.id := b]
    requires Collapsed(Groups(sim, [a, b]), before, after)
    ensures a.id in after && (b.id in after <==> sim.cosine(b.embedding, a.embedding) < sim.threshold)
    ensures b.id in after ==> after == before
    ensures b.id !in after ==>
      after[a.id] == a.(sources := a.sources + b.sources, confidence := if a.confidence < b.confidence then b.confidence else a.confidence)
  {
    var groups := Groups(sim, [a, b]);
    TwoFactsGroupIff(sim, a, b);
    RedirectOfTwo(a, b);
    MergedOfTwo(a, b);
    MergedOfTwo(b, a);
    assert groups[0][0] == a;
  }

  lemma MergedOfTwo(a: Fact, b: Fact)
    ensures Merged([a]) == a
    ensures Merged([a, b]) == a.(sources := a.sources + b.sources, confidence := if a.confidence < b.confidence then b.confidence else a.confidence)
  {
    assert [a, b][..1] == [a] && [a][..0] == [];
    assert AllSources([a]) == a.sources && AllSources([a, b]) == a.sources + b.sources;
    assert MaxConfidence([a]) == a.confidence;
  }

  lemma RedirectOfTwo(a: Fact, b: Fact)
    ensures Redirect([[a, b]]) == map[b.id := a.id]
    ensures Redirect([[a], [b]]) == map[]
  {
    assert [[a, b]][..0] == [] && [[a], [b]][..1] == [[a]] && [[a]][..0] == [];
    assert [a, b][1..] == [b] && b in [b];
    assert GroupRedirection([a, b]) == map[b.id := a.id];
    assert GroupRedirection([a]) == map[] && GroupRedirection([b]) == map[];
  }

  /** A second pass right after the first finds every fact in a group of its own: it merges
      nothing, redirects nothing and keeps every edge. */
  lemma SecondPassMergesNothing(sim: Similarity, first: seq<Fact>, second: seq<Fact>, before: map<nat, Fact>, after: map<nat, Fact>)
    requires IsListing(first, before) && forall y | y in before :: before[y].id == y
    requires Collapsed(Groups(sim, first), before, after)
    requires IsListing(second, after) && forall y | y in after :: after[y].id == y
    ensures |Groups(sim, second)| == |second|
    ensures Redirect(Groups(sim, second)) == map[]
  {
    forall i, j | 0 <= i < j < |second| ensures sim.cosine(second[j].embedding, second[i].embedding) < sim.threshold {
      assert second[i] in second && second[j] in second;
      SurvivorsAreApart(sim, first, before, after, second[i].id, second[j].id);
    }
    ApartMeansSingletons(sim, second);
    SingletonsRedirectNothing(Groups(sim, second));
  }

  lemma {:induction false} SingletonsRedirectNothing(groups: seq<seq<Fact>>)
    requires forall g | 0 <= g < |groups| :: |groups[g]| == 1
    ensures Redirect(groups) == map[]
  {
    if groups != [] {
      SingletonsRedirectNothing(groups[..|groups| - 1]);
    }
  }
}
