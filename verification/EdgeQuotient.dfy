/** The keyed edge table under a redirection of facts (brain/memory/decay.py). */
module EdgeQuotient {

  /** A semantic_edge row; the three columns together are the table's unique key. */
  datatype Edge = Edge(from: nat, to: nat, relation: string)

  /** A redirection sends each merged-away fact to its survivor and fixes the others. */
  type Redirection = map<nat, nat>

  /** Every one of the duplicates is sent to the survivor. */
  function Onto(dups: set<nat>, survivor: nat): (r: Redirection)
    ensures r.Keys == dups && r.Values <= {survivor}
  {
    map d | d in dups :: survivor
  }

  function Apply(r: Redirection, x: nat): nat {
    if x in r then r[x] else x
  }

  function Move(r: Redirection, e: Edge): Edge {
    Edge(Apply(r, e.from), Apply(r, e.to), e.relation)
  }

  /** An edge outlives the redirection unless it collapses to a loop; a loop that was already
      there stays when its fact stays. */
  predicate Kept(r: Redirection, e: Edge) {
    Apply(r, e.from) != Apply(r, e.to) || (e.from == e.to && Apply(r, e.from) == e.from)
  }

  /** The quotient of a set of edges. */
  ghost function Quotient(edges: set<Edge>, r: Redirection): set<Edge> {
    set e | e in edges && Kept(r, e) :: Move(r, e)
  }

  /** The quotient holds the edges whose ends are where the redirection sends the ends of an old edge of the same relation;
      two different ends that come together leave nothing, a loop stays where its fact stays. */
  lemma QuotientMeaning(edges: set<Edge>, r: Redirection, e: Edge)
    ensures e in Quotient(edges, r) <==>
      exists o | o in edges ::
        && e.relation == o.relation
        && e.from == (if o.from in r then r[o.from] else o.from)
        && e.to == (if o.to in r then r[o.to] else o.to)
        && (e.from != e.to || (o.from == o.to && o.from == e.from))
  {
    if e in Quotient(edges, r) {
      var o :| o in edges && Kept(r, o) && Move(r, o) == e;
      assert o.relation == e.relation;
    }
    if o :|
      && o in edges
      && e.relation == o.relation
      && e.from == (if o.from in r then r[o.from] else o.from)
      && e.to == (if o.to in r then r[o.to] else o.to)
      && (e.from != e.to || (o.from == o.to && o.from == e.from))
    {
      assert Move(r, o) == e && Kept(r, o);
    }
  }

  predicate Touches(ids: set<nat>, e: Edge) {
    e.from in ids || e.to in ids
  }

  ghost predicate UniqueKeys(table: map<nat, Edge>) {
    forall i, j | i in table && j in table && table[i] == table[j] :: i == j
  }

  /** The rows left when a fact is deleted: its foreign keys take the edges that name it along. */
  function Cascade(table: map<nat, Edge>, x: nat): (left: map<nat, Edge>)
  {
    map i | i in table && !Touches({x}, table[i]) :: table[i]
  }

  lemma NothingCascades(table: map<nat, Edge>, ids: set<nat>, x: nat)
    requires x in ids && forall i | i in table :: !Touches(ids, table[i])
    ensures Cascade(table, x) == table
  {
    assert Cascade(table, x).Keys == table.Keys;
  }

  /** Redirections of disjoint groups: neither moves what the other moves, and no survivor of
      one is merged away by the other. */
  ghost predicate Independent(p: Redirection, r: Redirection) {
    && p.Keys !! r.Keys
    && p.Values !! r.Keys
    && r.Values !! p.Keys
  }

  /** Redirecting twice, group after group, is redirecting once. */
  lemma QuotientsCompose(edges: set<Edge>, p: Redirection, r: Redirection)
    requires Independent(p, r)
    ensures Quotient(Quotient(edges, p), r) == Quotient(edges, p + r)
  {
    forall x ensures Apply(p + r, x) == Apply(r, Apply(p, x)) && (Apply(r, Apply(p, x)) == x ==> Apply(p, x) == x) {
      if x in p {
        assert p[x] in p.Values;
      } else if x in r {
        assert r[x] in r.Values;
      }
      if Apply(p, x) in r {
        assert r[Apply(p, x)] in r.Values;
      }
    }
    forall e ensures Kept(p + r, e) <==> Kept(p, e) && Kept(r, Move(p, e)) {
    }
    assert forall e :: Move(p + r, e) == Move(r, Move(p, e));
    forall k | k in Quotient(edges, p + r) ensures k in Quotient(Quotient(edges, p), r) {
      var e :| e in edges && Kept(p + r, e) && Move(p + r, e) == k;
      assert Move(p, e) in Quotient(edges, p);
    }
    forall k | k in Quotient(Quotient(edges, p), r) ensures k in Quotient(edges, p + r) {
      var m :| m in Quotient(edges, p) && Kept(r, m) && Move(r, m) == k;
      var e :| e in edges && Kept(p, e) && Move(p, e) == m;
      assert Kept(p + r, e);
    }
  }

  lemma NothingMoved(edges: set<Edge>)
    ensures Quotient(edges, map[]) == edges
  {
    forall e ensures Kept(map[], e) && Move(map[], e) == e {
    }
    forall e | e in edges ensures e in Quotient(edges, map[]) {
      assert Kept(map[], e) && Move(map[], e) == e;
    }
  }

  /** The row-by-row effect of re-pointing: rows clear of the duplicates are untouched, and a
      surviving row among the others carries the redirected key. */
  ghost predicate Repointed(before: map<nat, Edge>, after: map<nat, Edge>, dups: set<nat>, r: Redirection) {
    && after.Keys <= before.Keys
    && (forall i | i in before && !Touches(dups, before[i]) :: i in after && after[i] == before[i])
    && (forall i | i in after && Touches(dups, before[i]) :: after[i] == Move(r, before[i]) && Kept(r, before[i]))
  }

  /** Afterwards no row names a duplicate, and every end is an old end or a survivor. */
  lemma RepointedAvoids(before: map<nat, Edge>, after: map<nat, Edge>, dups: set<nat>, r: Redirection)
    requires Repointed(before, after, dups, r)
    requires r.Keys == dups && r.Values !! dups
    ensures forall i | i in after :: !Touches(dups, after[i])
    ensures forall i | i in after :: after[i].from in {before[i].from} + r.Values && after[i].to in {before[i].to} + r.Values
  {
    forall x ensures Apply(r, x) !in dups && Apply(r, x) in {x} + r.Values {
      if x in r { assert r[x] in r.Values; }
    }
  }

  /** A table halfway through the flush: some rows already updated, some already deleted. */
  ghost function MidFlush(before: map<nat, Edge>, after: map<nat, Edge>, updated: set<nat>, deleted: set<nat>): map<nat, Edge> {
    map i | i in before && !(i in deleted && i !in after) ::
      if i in updated && i in after then after[i] else before[i]
  }

  /** A row halfway: gone if it was to be deleted and has been, as it will be if it has been updated, as it was otherwise.
      Before any of the changes the table is the old one, after all of them the new one. */
  lemma FlushGoesFromOldToNew(before: map<nat, Edge>, after: map<nat, Edge>, updated: set<nat>, deleted: set<nat>, i: nat)
    requires after.Keys <= before.Keys
    ensures i in MidFlush(before, after, updated, deleted) <==> i in before && (i in after || i !in deleted)
    ensures i in MidFlush(before, after, updated, deleted) ==>
      MidFlush(before, after, updated, deleted)[i] == if i in updated && i in after then after[i] else before[i]
    ensures MidFlush(before, after, {}, {}) == before
    ensures MidFlush(before, after, before.Keys, before.Keys) == after
  {
  }

  /** Whatever subset of the updates and deletes has been carried out, the unique key holds:
      no order of applying them can trip the constraint. */
  lemma EveryOrderKeepsKeysUnique(before: map<nat, Edge>, after: map<nat, Edge>, dups: set<nat>,
                                  r: Redirection, updated: set<nat>, deleted: set<nat>)
    requires UniqueKeys(before) && UniqueKeys(after)
    requires Repointed(before, after, dups, r)
    requires r.Keys == dups && r.Values !! dups
    ensures UniqueKeys(MidFlush(before, after, updated, deleted))
  {
    var table := MidFlush(before, after, updated, deleted);
    RepointedAvoids(before, after, dups, r);
    forall i, j | i in table && j in table && table[i] == table[j] ensures i == j {
    }
  }
}
