/** Grouping near-duplicate semantic facts (brain/memory/decay.py). */
module FactGroups {

  type Embedding = seq<real>

  /** A semantic_fact row, reduced to the columns the merge reads or writes. */
  datatype Fact = Fact(id: nat, embedding: Embedding, sources: set<int>, confidence: real)

  /** The similarity test of the merge pass. The cosine is any function of two embeddings:
      nothing below relies on symmetry or on its range. */
  datatype Similarity = Similarity(cosine: (Embedding, Embedding) -> real, threshold: real) {
    predicate Near(fact: Fact, representative: Fact) {
      cosine(fact.embedding, representative.embedding) >= threshold
    }
  }

  /** The facts of a table in primary-key order. */
  ghost predicate Increasing(facts: seq<Fact>) {
    forall i, j | 0 <= i < j < |facts| :: facts[i].id < facts[j].id
  }

  /** The first group whose representative is near enough, or the number of groups. */
  function FirstMatch(sim: Similarity, groups: seq<seq<Fact>>, fact: Fact): (g: nat)
    requires forall h | 0 <= h < |groups| :: groups[h] != []
    ensures g <= |groups|
    ensures forall h | 0 <= h < g :: !sim.Near(fact, groups[h][0])
    ensures g < |groups| ==> sim.Near(fact, groups[g][0])
  {
    if groups == [] then 0
    else if sim.Near(fact, groups[0][0]) then 0
    else 1 + FirstMatch(sim, groups[1..], fact)
  }

  function Insert(sim: Similarity, groups: seq<seq<Fact>>, fact: Fact): (r: seq<seq<Fact>>)
    requires forall h | 0 <= h < |groups| :: groups[h] != []
    ensures forall h | 0 <= h < |r| :: r[h] != []
  {
    var g := FirstMatch(sim, groups, fact);
    if g == |groups| then groups + [[fact]] else groups[g := groups[g] + [fact]]
  }

  /** Greedy single-link grouping by representative. */
  function Groups(sim: Similarity, facts: seq<Fact>): (groups: seq<seq<Fact>>)
    ensures forall h | 0 <= h < |groups| :: groups[h] != []
  {
    if facts == [] then []
    else Insert(sim, Groups(sim, facts[..|facts| - 1]), facts[|facts| - 1])
  }

  /** The double loop of the source: scan the groups for a near representative, append there
      and stop, or else open a new group. */
  method DuplicateFactGroups(sim: Similarity, facts: seq<Fact>) returns (groups: seq<seq<Fact>>)
    ensures groups == Groups(sim, facts)
  {
    groups := [];
    for i := 0 to |facts|
      invariant groups == Groups(sim, facts[..i])
    {
      var fact := facts[i];
      ghost var before := groups;
      var g := 0;
      while g < |groups| && !sim.Near(fact, groups[g][0])
        invariant 0 <= g <= |groups|
        invariant forall h | 0 <= h < g :: !sim.Near(fact, groups[h][0])
      {
        g := g + 1;
      }
      if g < |groups| {
        groups := groups[g := groups[g] + [fact]];
      } else {
        groups := groups + [[fact]];
      }
      assert facts[..i + 1][..i] == facts[..i];
      assert groups == Insert(sim, before, fact);
    }
    assert facts[..|facts|] == facts;
  }

  ghost predicate InSome(groups: seq<seq<Fact>>, f: Fact) {
    exists g :: 0 <= g < |groups| && f in groups[g]
  }

  /** No id occurs in two groups. */
  ghost predicate Apart(groups: seq<seq<Fact>>) {
    forall g, h, a, b | 0 <= g < h < |groups| && a in groups[g] && b in groups[h] :: a.id != b.id
  }

  /** The groups hold exactly the given facts, each in one place, and every group lists its
      members in primary-key order. */
  ghost predicate IsPartition(groups: seq<seq<Fact>>, facts: seq<Fact>) {
    && (forall g | 0 <= g < |groups| :: groups[g] != [] && Increasing(groups[g]))
    && (forall f :: InSome(groups, f) <==> f in facts)
    && Apart(groups)
  }

  /** What being grouped means: a member is the representative or near it, and is near no
      representative of an earlier group. */
  ghost predicate IsGreedy(sim: Similarity, groups: seq<seq<Fact>>)
    requires forall g | 0 <= g < |groups| :: groups[g] != []
  {
    && (forall g, f | 0 <= g < |groups| && f in groups[g] :: f == groups[g][0] || sim.Near(f, groups[g][0]))
    && (forall g, h, f | 0 <= h < g < |groups| && f in groups[g] :: !sim.Near(f, groups[h][0]))
  }

  /** Where a fact of the grown grouping comes from. */
  lemma InsertMembers(sim: Similarity, groups: seq<seq<Fact>>, fact: Fact)
    requires forall h | 0 <= h < |groups| :: groups[h] != []
    ensures var g, r := FirstMatch(sim, groups, fact), Insert(sim, groups, fact);
      && g < |r| && r[g] == (if g < |groups| then groups[g] else []) + [fact]
      && |r| == (if g < |groups| then |groups| else |groups| + 1)
      && (forall h | 0 <= h < |r| && h != g :: h < |groups| && r[h] == groups[h])
  {
  }

  lemma MemberFrom(sim: Similarity, groups: seq<seq<Fact>>, fact: Fact, h: nat, a: Fact)
    requires forall h | 0 <= h < |groups| :: groups[h] != []
    requires h < |Insert(sim, groups, fact)| && a in Insert(sim, groups, fact)[h]
    ensures (a == fact && h == FirstMatch(sim, groups, fact)) || (h < |groups| && a in groups[h])
  {
    InsertMembers(sim, groups, fact);
  }

  lemma InsertKeepsApart(sim: Similarity, groups: seq<seq<Fact>>, fact: Fact)
    requires forall h | 0 <= h < |groups| :: groups[h] != []
    requires Apart(groups)
    requires forall f | InSome(groups, f) :: f.id < fact.id
    ensures Apart(Insert(sim, groups, fact))
  {
    var r := Insert(sim, groups, fact);
    forall h, k, a: Fact, b: Fact | 0 <= h < k < |r| && a in r[h] && b in r[k] ensures a.id != b.id {
      MemberFrom(sim, groups, fact, h, a);
      MemberFrom(sim, groups, fact, k, b);
      if h < |groups| && a in groups[h] {
        assert InSome(groups, a);
      }
      if k < |groups| && b in groups[k] {
        assert InSome(groups, b);
      }
    }
  }

  lemma AppendKeepsIncreasing(group: seq<Fact>, fact: Fact)
    requires Increasing(group)
    requires forall f | f in group :: f.id < fact.id
    ensures Increasing(group + [fact])
  {
  }

  lemma InsertMembersOf(sim: Similarity, groups: seq<seq<Fact>>, fact: Fact, f: Fact)
    requires forall h | 0 <= h < |groups| :: groups[h] != []
    ensures InSome(Insert(sim, groups, fact), f) <==> InSome(groups, f) || f == fact
  {
    var g, r := FirstMatch(sim, groups, fact), Insert(sim, groups, fact);
    InsertMembers(sim, groups, fact);
    if InSome(groups, f) {
      var h :| 0 <= h < |groups| && f in groups[h];
      assert f in r[h];
    } else if f == fact {
      assert f in r[g];
    }
  }

  lemma InsertKeepsIncreasing(sim: Similarity, groups: seq<seq<Fact>>, fact: Fact, h: nat)
    requires forall h | 0 <= h < |groups| :: groups[h] != [] && Increasing(groups[h])
    requires forall f | InSome(groups, f) :: f.id < fact.id
    requires h < |Insert(sim, groups, fact)|
    ensures Increasing(Insert(sim, groups, fact)[h])
  {
    InsertMembers(sim, groups, fact);
    if h < |groups| {
      assert forall f | f in groups[h] :: InSome(groups, f);
      AppendKeepsIncreasing(groups[h], fact);
    }
  }

  lemma InsertKeepsPartition(sim: Similarity, groups: seq<seq<Fact>>, facts: seq<Fact>, fact: Fact)
    requires IsPartition(groups, facts)
    requires forall f | f in facts :: f.id < fact.id
    ensures IsPartition(Insert(sim, groups, fact), facts + [fact])
  {
    InsertKeepsApart(sim, groups, fact);
    forall h | 0 <= h < |Insert(sim, groups, fact)| ensures Increasing(Insert(sim, groups, fact)[h]) {
      InsertKeepsIncreasing(sim, groups, fact, h);
    }
    forall f ensures InSome(Insert(sim, groups, fact), f) <==> f in facts + [fact] {
      InsertMembersOf(sim, groups, fact, f);
    }
  }

  lemma InsertKeepsGreedy(sim: Similarity, groups: seq<seq<Fact>>, fact: Fact)
    requires forall h | 0 <= h < |groups| :: groups[h] != []
    requires IsGreedy(sim, groups)
    ensures IsGreedy(sim, Insert(sim, groups, fact))
  {
    var g, r := FirstMatch(sim, groups, fact), Insert(sim, groups, fact);
    InsertMembers(sim, groups, fact);
    forall h, f | 0 <= h < |r| && f in r[h]
      ensures f == r[h][0] || sim.Near(f, r[h][0])
      ensures forall k | 0 <= k < h :: !sim.Near(f, r[k][0])
    {
      assert (f == fact && h == g) || (h < |groups| && f in groups[h]);
      assert forall k | 0 <= k < |groups| :: r[k][0] == groups[k][0];
    }
  }

  lemma {:induction false} GroupsPartitionTheFacts(sim: Similarity, facts: seq<Fact>)
    requires Increasing(facts)
    ensures IsPartition(Groups(sim, facts), facts)
    ensures IsGreedy(sim, Groups(sim, facts))
  {
    if facts != [] {
      var n := |facts| - 1;
      GroupsPartitionTheFacts(sim, facts[..n]);
      assert facts == facts[..n] + [facts[n]];
      InsertKeepsPartition(sim, Groups(sim, facts[..n]), facts[..n], facts[n]);
      InsertKeepsGreedy(sim, Groups(sim, facts[..n]), facts[n]);
    }
  }

  /** In a grouping of facts in key order, every later member of a group reaches the threshold with the first
      member of its group, and every member stays below it with the first member of every earlier group. */
  lemma GroupedByCosine(sim: Similarity, facts: seq<Fact>)
    requires Increasing(facts)
    ensures var groups := Groups(sim, facts);
      && (forall g, f | 0 <= g < |groups| && f in groups[g] && f != groups[g][0] ::
            sim.cosine(f.embedding, groups[g][0].embedding) >= sim.threshold)
      && (forall g, h, f | 0 <= h < g < |groups| && f in groups[g] ::
            sim.cosine(f.embedding, groups[h][0].embedding) < sim.threshold)
  {
    var groups := Groups(sim, facts);
    GroupsPartitionTheFacts(sim, facts);
    forall g, f: Fact | 0 <= g < |groups| && f in groups[g] && f != groups[g][0]
      ensures sim.cosine(f.embedding, groups[g][0].embedding) >= sim.threshold
    {
      NearMeaning(sim, f, groups[g][0]);
    }
    forall g, h, f: Fact | 0 <= h < g < |groups| && f in groups[g]
      ensures sim.cosine(f.embedding, groups[h][0].embedding) < sim.threshold
    {
      NearMeaning(sim, f, groups[h][0]);
    }
  }

  lemma NearMeaning(sim: Similarity, fact: Fact, representative: Fact)
    ensures sim.Near(fact, representative) <==> sim.cosine(fact.embedding, representative.embedding) >= sim.threshold
  {
  }

  /** Two facts are put together if and only if the cosine of the later one with the earlier one reaches the
      threshold. */
  lemma TwoFactsGroupIff(sim: Similarity, a: Fact, b: Fact)
    ensures Groups(sim, [a, b]) == if sim.cosine(b.embedding, a.embedding) >= sim.threshold then [[a, b]] else [[a], [b]]
  {
    assert [a, b][..1] == [a] && [a][..0] == [];
    assert Groups(sim, [a]) == Insert(sim, [], a) == [[a]];
    NearMeaning(sim, b, a);
    assert Groups(sim, [a, b]) == Insert(sim, [[a]], b);
    assert FirstMatch(sim, [[a]], b) == if sim.Near(b, a) then 0 else 1;
    assert [a] + [b] == [a, b] && [[a]] + [[b]] == [[a], [b]] && [[a]][0 := [a, b]] == [[a, b]];
  }

  /** When no fact is near an earlier one, nothing is grouped. */
  lemma {:induction false} ApartMeansSingletons(sim: Similarity, facts: seq<Fact>)
    requires forall i, j | 0 <= i < j < |facts| :: sim.cosine(facts[j].embedding, facts[i].embedding) < sim.threshold
    ensures |Groups(sim, facts)| == |facts|
    ensures forall g | 0 <= g < |facts| :: Groups(sim, facts)[g] == [facts[g]]
  {
    if facts != [] {
      var n := |facts| - 1;
      ApartMeansSingletons(sim, facts[..n]);
      assert FirstMatch(sim, Groups(sim, facts[..n]), facts[n]) == n;
    }
  }

  /** Groups are opened in primary-key order. */
  lemma {:induction false} HeadsIncrease(sim: Similarity, facts: seq<Fact>)
    requires Increasing(facts)
    ensures forall g, h | 0 <= g < h < |Groups(sim, facts)| :: Groups(sim, facts)[g][0].id < Groups(sim, facts)[h][0].id
  {
    if facts != [] {
      var n := |facts| - 1;
      var before, groups := Groups(sim, facts[..n]), Groups(sim, facts);
      HeadsIncrease(sim, facts[..n]);
      GroupsPartitionTheFacts(sim, facts[..n]);
      InsertMembers(sim, before, facts[n]);
      forall g | 0 <= g < |before| ensures groups[g][0] == before[g][0] && before[g][0].id < facts[n].id {
        assert InSome(before, before[g][0]);
      }
    }
  }
}
