/** What each facet counts, and that it tells how many listings the same search narrowed to it would find. */
module FacetLaws {
  import opened Wrappers
  import opened Listings
  import opened Search
  import opened Facets
  import Cursors

  // ---- What is counted under a label ----

  /** Of these listings, those that have the property. */
  function Having(m: Moment, ids: set<Id>, keep: Row -> bool): set<Id> {
    set id | id in ids && id in m.table && keep(m.table[id])
  }

  function IsOfType(t: string): Row -> bool {
    (row: Row) => row.content.listingType == t
  }

  function HasCategory(c: string): Row -> bool {
    (row: Row) => c in row.content.taskCategories
  }

  function IsPaidOn(n: string): Row -> bool {
    (row: Row) => exists p <- row.content.paymentOptions :: p.network == n
  }

  function IsFrom(source: string): Row -> bool {
    (row: Row) => row.source == Some(source)
  }

  lemma TypesCounted(m: Moment, ids: set<Id>, t: string)
    requires ids <= m.table.Keys
    ensures t in Counts(TypesOf(m, ids)) <==> Having(m, ids, IsOfType(t)) != {}
    ensures t in Counts(TypesOf(m, ids)) ==> Counts(TypesOf(m, ids))[t] == |Having(m, ids, IsOfType(t))|
  {
    var types := TypesOf(m, ids);
    assert Labelled(types, t) == Having(m, ids, IsOfType(t));
    if id :| id in Having(m, ids, IsOfType(t)) { assert types[id] == t; }
    if t in types.Values {
      var id :| id in types && types[id] == t;
      assert id in Having(m, ids, IsOfType(t));
    }
  }

  lemma NetworksCounted(m: Moment, ids: set<Id>, n: string)
    requires ids <= m.table.Keys
    ensures n in ByNetwork(NetworksOf(m, ids)) <==> Having(m, ids, IsPaidOn(n)) != {}
    ensures n in ByNetwork(NetworksOf(m, ids)) ==> ByNetwork(NetworksOf(m, ids))[n] == |Having(m, ids, IsPaidOn(n))|
  {
    var networks := NetworksOf(m, ids);
    forall id | id in ids
      ensures n in networks[id] <==> exists p <- m.table[id].content.paymentOptions :: p.network == n { }
    assert Holding(networks, n) == Having(m, ids, IsPaidOn(n));
    if id :| id in Holding(networks, n) { assert n in AllNetworks(networks); }
    if n in AllNetworks(networks) {
      var id :| id in networks && n in networks[id];
      assert id in Holding(networks, n);
    }
  }

  lemma {:induction false} UnnestedRemove(lists: map<string, seq<string>>, id: string)
    requires id in lists
    ensures Unnested(lists) == multiset(lists[id]) + Unnested(lists - {id})
    decreases lists.Keys
  {
    var j :| j in lists && Unnested(lists) == multiset(lists[j]) + Unnested(lists - {j});
    if j != id {
      UnnestedRemove(lists - {j}, id);
      UnnestedRemove(lists - {id}, j);
      assert lists - {j} - {id} == lists - {id} - {j};
    }
  }

  ghost predicate NoRepeats(lists: map<string, seq<string>>) {
    forall id :: id in lists ==> forall i, j :: 0 <= i < j < |lists[id]| ==> lists[id][i] != lists[id][j]
  }

  lemma {:induction false} OnceIn(list: seq<string>, c: string)
    requires forall i, j :: 0 <= i < j < |list| ==> list[i] != list[j]
    ensures multiset(list)[c] == if c in list then 1 else 0
  {
    if list != [] {
      assert list == [list[0]] + list[1..];
      OnceIn(list[1..], c);
    }
  }

  function Holders(lists: map<string, seq<string>>, c: string): set<string> {
    set id | id in lists && c in lists[id]
  }

  lemma HoldersRemove(lists: map<string, seq<string>>, c: string, id: string)
    requires id in lists
    ensures |Holders(lists, c)| == |Holders(lists - {id}, c)| + if c in lists[id] then 1 else 0
  {
    var fewer := Holders(lists - {id}, c);
    assert id !in fewer && Holders(lists, c) == fewer + if c in lists[id] then {id} else {};
  }

  /** A category is counted once for every listing that has it, as long as no listing names it twice. */
  lemma {:induction false} CategoriesCounted(lists: map<string, seq<string>>, c: string)
    requires NoRepeats(lists)
    ensures Unnested(lists)[c] == |Holders(lists, c)|
    decreases lists.Keys
  {
    if lists == map[] {
      assert Holders(lists, c) == {};
    } else {
      var id :| id in lists;
      UnnestedRemove(lists, id);
      OnceIn(lists[id], c);
      CategoriesCounted(lists - {id}, c);
      HoldersRemove(lists, c, id);
    }
  }

  /** No listing names a category twice, which validation sees to. */
  lemma CategoryFacetIs(m: Moment, ids: set<Id>, c: string)
    requires ids <= m.table.Keys && NoRepeats(CategoriesOf(m, ids))
    ensures var facet := ByCategory(CategoriesOf(m, ids));
            && (c in facet <==> c in TASK_CATEGORIES || Having(m, ids, HasCategory(c)) != {})
            && (c in facet ==> facet[c] == |Having(m, ids, HasCategory(c))|)
  {
    var lists := CategoriesOf(m, ids);
    CategoriesCounted(lists, c);
    assert Holders(lists, c) == Having(m, ids, HasCategory(c));
    assert c in Unnested(lists) <==> |Holders(lists, c)| > 0;
    assert |Holders(lists, c)| > 0 <==> Holders(lists, c) != {};
  }

  /** A label only one group has is published with that group's count. */
  lemma {:induction false} OnlyGroupOfLabel(groups: seq<Option<string>>, counts: map<Option<string>, nat>,
                                            g: Option<string>)
    requires g in groups && forall h :: h in groups ==> h in counts
    requires forall h :: h in groups && SourceLabel(h) == SourceLabel(g) ==> h == g
    ensures SourceLabel(g) in BySource(groups, counts) && BySource(groups, counts)[SourceLabel(g)] == counts[g]
  {
    var init, last := groups[..|groups| - 1], groups[|groups| - 1];
    assert groups == init + [last];
    if last != g { OnlyGroupOfLabel(init, counts, g); }
  }

  /** Every source with a name of its own is published under it, with as many listings as it has. */
  lemma SourceFacetIs(m: Moment, ids: set<Id>, groups: seq<Option<string>>, name: string)
    requires ids <= m.table.Keys && Enumerates(groups, Counts(SourcesOf(m, ids)))
    requires name != "" && name != "none" && Having(m, ids, IsFrom(name)) != {}
    ensures var facet := BySource(groups, Counts(SourcesOf(m, ids)));
            name in facet && facet[name] == |Having(m, ids, IsFrom(name))|
  {
    var sources, counts := SourcesOf(m, ids), Counts(SourcesOf(m, ids));
    var id :| id in Having(m, ids, IsFrom(name));
    assert sources[id] == Some(name) && Some(name) in counts;
    assert Labelled(sources, Some(name)) == Having(m, ids, IsFrom(name));
    OnlyGroupOfLabel(groups, counts, Some(name));
  }

  // ---- What a facet promises of the narrowed search ----

  /** `g` asks for what `f` asks for and for `keep` besides. */
  ghost predicate Narrows(engine: Engine, m: Moment, f: Filter, g: Filter, keep: Row -> bool) {
    forall id :: id in m.table ==>
      (Matches(engine, g, m.table[id], m.now) <==> Matches(engine, f, m.table[id], m.now) && keep(m.table[id]))
  }

  /** The listings a filter matches and full text finds. */
  function Hits(engine: Engine, m: Moment, f: Filter, q: string): set<Id> {
    set id | id in m.table && Matches(engine, f, m.table[id], m.now) && engine.fullText(m.table[id].content, q)
  }

  lemma HitsNarrow(engine: Engine, m: Moment, f: Filter, g: Filter, q: string, keep: Row -> bool)
    requires Narrows(engine, m, f, g, keep)
    ensures Hits(engine, m, g, q) == Having(m, Hits(engine, m, f, q), keep)
  { }

  /** What a narrowed search finds, if it keeps anything, is what it keeps, even where the search fell back. */
  lemma NarrowedFinds(engine: Engine, m: Moment, f: Filter, g: Filter, q: Option<string>, keep: Row -> bool)
    requires Narrows(engine, m, f, g, keep) && Having(m, Counted(engine, m, f, q), keep) != {}
    ensures Counted(engine, m, g, q) == Having(m, Counted(engine, m, f, q), keep)
  {
    if Cursors.Searching(q) {
      HitsNarrow(engine, m, f, g, q.value, keep);
      assert Hits(engine, m, f, q.value) != {} ==> Counted(engine, m, f, q) == Hits(engine, m, f, q.value);
      assert Hits(engine, m, g, q.value) != {} ==> Counted(engine, m, g, q) == Hits(engine, m, g, q.value);
    }
  }

  /** So a count of those it keeps is its total. */
  lemma KeptTotal(engine: Engine, m: Moment, f: Filter, g: Filter, q: Option<string>, limit: nat, keep: Row -> bool)
    requires Narrows(engine, m, f, g, keep) && Having(m, Counted(engine, m, f, q), keep) != {}
    ensures ListListings(engine, m, g, q, limit, 0, None).total == |Having(m, Counted(engine, m, f, q), keep)|
  {
    NarrowedFinds(engine, m, f, g, q, keep);
    FacetsAgreeWithSearch(engine, m, g, q, limit, 0);
  }

  lemma TypeNarrows(engine: Engine, m: Moment, f: Filter, t: string)
    requires f.listingType.None?
    ensures Narrows(engine, m, f, f.(listingType := Some(t)), IsOfType(t))
  {
    forall id | id in m.table
      ensures Matches(engine, f.(listingType := Some(t)), m.table[id], m.now) <==>
                Matches(engine, f, m.table[id], m.now) && m.table[id].content.listingType == t
    {
      OneType(engine, f, t, m.table[id], m.now);
    }
  }

  lemma OneType(engine: Engine, f: Filter, t: string, row: Row, now: Time)
    requires f.listingType.None?
    ensures Matches(engine, f.(listingType := Some(t)), row, now) <==>
            Matches(engine, f, row, now) && row.content.listingType == t
  {
    assert MatchesPayment(engine, f.(listingType := Some(t)), row) <==> MatchesPayment(engine, f, row);
  }

  lemma CategoryNarrows(engine: Engine, m: Moment, f: Filter, c: string)
    requires f.taskCategories == []
    ensures Narrows(engine, m, f, f.(taskCategories := [c]), HasCategory(c))
  {
    forall id | id in m.table
      ensures Matches(engine, f.(taskCategories := [c]), m.table[id], m.now) <==>
                Matches(engine, f, m.table[id], m.now) && c in m.table[id].content.taskCategories
    {
      OneCategory(engine, f, c, m.table[id], m.now);
    }
  }

  lemma OneCategory(engine: Engine, f: Filter, c: string, row: Row, now: Time)
    requires f.taskCategories == []
    ensures Matches(engine, f.(taskCategories := [c]), row, now) <==>
            Matches(engine, f, row, now) && c in row.content.taskCategories
  {
    var g := f.(taskCategories := [c]);
    assert c in g.taskCategories && forall x :: x in g.taskCategories ==> x == c;
    assert MatchesListing(g, row) <==> MatchesListing(f, row) && c in row.content.taskCategories;
    assert MatchesPayment(engine, g, row) <==> MatchesPayment(engine, f, row);
  }

  lemma NetworkNarrows(engine: Engine, m: Moment, f: Filter, n: string)
    requires f.paymentNetwork.None? && f.maxPrice.None?
    ensures Narrows(engine, m, f, f.(paymentNetwork := Some(n)), IsPaidOn(n))
  {
    forall id | id in m.table
      ensures Matches(engine, f.(paymentNetwork := Some(n)), m.table[id], m.now) <==>
                Matches(engine, f, m.table[id], m.now) && IsPaidOn(n)(m.table[id])
    {
      OneNetwork(engine, f, n, m.table[id], m.now);
    }
  }

  lemma OneNetwork(engine: Engine, f: Filter, n: string, row: Row, now: Time)
    requires f.paymentNetwork.None? && f.maxPrice.None?
    ensures Matches(engine, f.(paymentNetwork := Some(n)), row, now) <==>
            Matches(engine, f, row, now) && IsPaidOn(n)(row)
  {
    var g := f.(paymentNetwork := Some(n));
    assert MatchesListing(g, row) <==> MatchesListing(f, row);
    assert MatchesPayment(engine, g, row) <==> exists p <- row.content.paymentOptions :: p.network == n;
  }

  lemma FacetIs(engine: Engine, m: Moment, f: Filter, q: Option<string>, groups: seq<Option<string>>)
    requires Enumerates(groups, Counts(SourcesOf(m, Counted(engine, m, f, q))))
    ensures var facet, ids := Facet(engine, m, f, q, groups), Counted(engine, m, f, q);
            && facet.byType == Counts(TypesOf(m, ids)) && facet.byNetwork == ByNetwork(NetworksOf(m, ids))
            && facet.byCategory == ByCategory(CategoriesOf(m, ids))
  { }

  /** A type's count is the total of the same search for that type, in all three modes. */
  lemma TypeFacetTellsTotal(engine: Engine, m: Moment, f: Filter, q: Option<string>, limit: nat,
                            groups: seq<Option<string>>, t: string)
    requires Enumerates(groups, Counts(SourcesOf(m, Counted(engine, m, f, q))))
    requires f.listingType.None? && t in Facet(engine, m, f, q, groups).byType
    ensures ListListings(engine, m, f.(listingType := Some(t)), q, limit, 0, None).total ==
            Facet(engine, m, f, q, groups).byType[t]
  {
    FacetIs(engine, m, f, q, groups);
    TypeTotal(engine, m, f, q, limit, t);
  }

  lemma TypeTotal(engine: Engine, m: Moment, f: Filter, q: Option<string>, limit: nat, t: string)
    requires f.listingType.None? && t in Counts(TypesOf(m, Counted(engine, m, f, q)))
    ensures ListListings(engine, m, f.(listingType := Some(t)), q, limit, 0, None).total ==
            Counts(TypesOf(m, Counted(engine, m, f, q)))[t]
  {
    TypesCounted(m, Counted(engine, m, f, q), t);
    TypeNarrows(engine, m, f, t);
    KeptTotal(engine, m, f, f.(listingType := Some(t)), q, limit, IsOfType(t));
  }

  /** So is a network's, unless the search has a price cap, which one and the same option must meet. */
  lemma NetworkFacetTellsTotal(engine: Engine, m: Moment, f: Filter, q: Option<string>, limit: nat,
                               groups: seq<Option<string>>, n: string)
    requires Enumerates(groups, Counts(SourcesOf(m, Counted(engine, m, f, q))))
    requires f.paymentNetwork.None? && f.maxPrice.None? && n in Facet(engine, m, f, q, groups).byNetwork
    ensures ListListings(engine, m, f.(paymentNetwork := Some(n)), q, limit, 0, None).total ==
            Facet(engine, m, f, q, groups).byNetwork[n]
  {
    FacetIs(engine, m, f, q, groups);
    NetworkTotal(engine, m, f, q, limit, n);
  }

  lemma NetworkTotal(engine: Engine, m: Moment, f: Filter, q: Option<string>, limit: nat, n: string)
    requires f.paymentNetwork.None? && f.maxPrice.None?
    requires n in ByNetwork(NetworksOf(m, Counted(engine, m, f, q)))
    ensures ListListings(engine, m, f.(paymentNetwork := Some(n)), q, limit, 0, None).total ==
            ByNetwork(NetworksOf(m, Counted(engine, m, f, q)))[n]
  {
    var ids := Counted(engine, m, f, q);
    NetworksCounted(m, ids, n);
    NetworkNarrows(engine, m, f, n);
    KeptTotal(engine, m, f, f.(paymentNetwork := Some(n)), q, limit, IsPaidOn(n));
  }

  /** And a category's, as long as no listing names it twice. */
  lemma CategoryFacetTellsTotal(engine: Engine, m: Moment, f: Filter, q: Option<string>, limit: nat,
                                groups: seq<Option<string>>, c: string)
    requires Enumerates(groups, Counts(SourcesOf(m, Counted(engine, m, f, q))))
    requires f.taskCategories == [] && NoRepeats(CategoriesOf(m, Counted(engine, m, f, q)))
    requires var facet := Facet(engine, m, f, q, groups); c in facet.byCategory && facet.byCategory[c] > 0
    ensures ListListings(engine, m, f.(taskCategories := [c]), q, limit, 0, None).total ==
            Facet(engine, m, f, q, groups).byCategory[c]
  {
    FacetIs(engine, m, f, q, groups);
    CategoryTotal(engine, m, f, q, limit, c);
  }

  lemma CategoryTotal(engine: Engine, m: Moment, f: Filter, q: Option<string>, limit: nat, c: string)
    requires f.taskCategories == [] && NoRepeats(CategoriesOf(m, Counted(engine, m, f, q)))
    requires var facet := ByCategory(CategoriesOf(m, Counted(engine, m, f, q))); c in facet && facet[c] > 0
    ensures ListListings(engine, m, f.(taskCategories := [c]), q, limit, 0, None).total ==
            ByCategory(CategoriesOf(m, Counted(engine, m, f, q)))[c]
  {
    CategoryFacetIs(m, Counted(engine, m, f, q), c);
    CategoryNarrows(engine, m, f, c);
    KeptTotal(engine, m, f, f.(taskCategories := [c]), q, limit, HasCategory(c));
  }
}
