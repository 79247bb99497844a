/** Counts of matching listings per category, type, network and source, and what those counts add up to. */
module Facets {
  import opened Wrappers
  import opened Listings
  import opened Search
  import Cursors

  /** The fixed category menu. */
  const TASK_CATEGORIES := [
    "data extraction", "summarization", "content generation", "code generation", "code review",
    "research/search", "translation", "image generation", "data validation", "scheduling",
    "finance and tax", "crypto and blockchain data", "security and compliance",
    "commerce and shopping", "media generation", "other"]

  ghost function Sum<K(!new)>(m: map<K, nat>): nat
    decreases m.Keys
  {
    if m == map[] then 0
    else var k :| k in m; m[k] + Sum(m - {k})
  }

  lemma {:induction false} SumRemove<K(!new)>(m: map<K, nat>, k: K)
    requires k in m
    ensures Sum(m) == m[k] + Sum(m - {k})
    decreases m.Keys
  {
    var j :| j in m && Sum(m) == m[j] + Sum(m - {j});
    if j != k {
      SumRemove(m - {j}, k);
      SumRemove(m - {k}, j);
      assert m - {j} - {k} == m - {k} - {j};
    }
  }

  /** Replacing or adding one entry. */
  lemma SumUpdate<K(!new)>(m: map<K, nat>, k: K, x: nat)
    ensures Sum(m[k := x]) == Sum(m - {k}) + x
    ensures Sum(m) == Sum(m - {k}) + if k in m then m[k] else 0
  {
    SumRemove(m[k := x], k);
    assert m[k := x] - {k} == m - {k};
    if k in m { SumRemove(m, k); } else { assert m - {k} == m; }
  }

  function Labelled<V(==)>(labels: map<string, V>, v: V): set<string> {
    set id | id in labels && labels[id] == v
  }

  /** GROUP BY: how many ids carry each label. */
  function Counts<V(==)>(labels: map<string, V>): map<V, nat> {
    map v | v in labels.Values :: |Labelled(labels, v)|
  }

  lemma CountsWithout<V(!new)>(labels: map<string, V>, id: string)
    requires id in labels
    ensures var v, now, before := labels[id], Counts(labels), Counts(labels - {id});
            && v in now && now == before[v := 1 + if v in before then before[v] else 0]
  {
    var fewer, v := labels - {id}, labels[id];
    assert Labelled(labels, v) == Labelled(fewer, v) + {id};
    forall u | u != v ensures Labelled(labels, u) == Labelled(fewer, u) { }
    forall u ensures u in labels.Values <==> u in fewer.Values || u == v {
      if u in labels.Values && u != v {
        var i :| i in labels && labels[i] == u;
        assert i in fewer && fewer[i] == u;
      }
    }
    if v !in fewer.Values {
      forall i ensures i !in Labelled(fewer, v) {
        if i in fewer { assert fewer[i] in fewer.Values; }
      }
      assert Labelled(fewer, v) == {};
    }
  }

  /** The groups' counts add up to the number of rows grouped. */
  lemma {:induction false} CountsAddUp<V(!new)>(labels: map<string, V>)
    ensures Sum(Counts(labels)) == |labels|
    decreases labels.Keys
  {
    if labels == map[] {
      assert Counts(labels) == map[];
    } else {
      var id :| id in labels;
      var before, v := Counts(labels - {id}), labels[id];
      CountsAddUp(labels - {id});
      CountsWithout(labels, id);
      SumUpdate(before, v, 1 + if v in before then before[v] else 0);
    }
  }

  lemma CountsPositive<V(!new)>(labels: map<string, V>)
    ensures forall v :: v in Counts(labels) ==> Counts(labels)[v] > 0
  {
    forall v | v in Counts(labels) ensures Counts(labels)[v] > 0 {
      var id :| id in labels && labels[id] == v;
      assert id in Labelled(labels, v);
    }
  }

  /** The key a group's count is published under: `source or "none"`. */
  function SourceLabel(source: Option<string>): string {
    if source.None? || source.value == "" then "none" else source.value
  }

  /** The published counts, built group by group; a later group with the same label replaces an earlier one. */
  function BySource(groups: seq<Option<string>>, counts: map<Option<string>, nat>): map<string, nat>
    requires forall g :: g in groups ==> g in counts
  {
    if groups == [] then map[]
    else
      var last := groups[|groups| - 1];
      BySource(groups[..|groups| - 1], counts)[SourceLabel(last) := counts[last]]
  }

  function SumOf(groups: seq<Option<string>>, counts: map<Option<string>, nat>): nat
    requires forall g :: g in groups ==> g in counts
  {
    if groups == [] then 0
    else SumOf(groups[..|groups| - 1], counts) + counts[groups[|groups| - 1]]
  }

  ghost predicate Enumerates<V(!new)>(groups: seq<V>, counts: map<V, nat>) {
    && (forall g :: g in groups <==> g in counts)
    && (forall i, j :: 0 <= i < j < |groups| ==> groups[i] != groups[j])
  }

  lemma {:induction false} SumOfIsSum(groups: seq<Option<string>>, counts: map<Option<string>, nat>)
    requires Enumerates(groups, counts)
    ensures SumOf(groups, counts) == Sum(counts)
  {
    if groups == [] {
      assert counts == map[];
    } else {
      var init, last := groups[..|groups| - 1], groups[|groups| - 1];
      SumRemove(counts, last);
      SumOfIsSum(init, counts - {last});
      SumOfFrame(init, counts, counts - {last});
    }
  }

  lemma {:induction false} SumOfFrame(groups: seq<Option<string>>, a: map<Option<string>, nat>,
                                      b: map<Option<string>, nat>)
    requires forall g :: g in groups ==> g in a && g in b && a[g] == b[g]
    ensures SumOf(groups, a) == SumOf(groups, b)
  {
    if groups != [] { SumOfFrame(groups[..|groups| - 1], a, b); }
  }

  ghost predicate LabelsDistinct(groups: seq<Option<string>>) {
    forall i, j :: 0 <= i < j < |groups| ==> SourceLabel(groups[i]) != SourceLabel(groups[j])
  }

  lemma {:induction false} BySourceKeys(groups: seq<Option<string>>, counts: map<Option<string>, nat>)
    requires forall g :: g in groups ==> g in counts && counts[g] > 0
    ensures forall s :: s in BySource(groups, counts) <==> exists g :: g in groups && SourceLabel(g) == s
    ensures forall s :: s in BySource(groups, counts) ==> BySource(groups, counts)[s] > 0
  {
    if groups != [] {
      var init, last := groups[..|groups| - 1], groups[|groups| - 1];
      BySourceKeys(init, counts);
      assert forall g :: g in groups <==> g in init || g == last;
    }
  }

  lemma DistinctSnoc(groups: seq<Option<string>>, last: Option<string>)
    ensures LabelsDistinct(groups + [last]) <==>
            LabelsDistinct(groups) && !exists g :: g in groups && SourceLabel(g) == SourceLabel(last)
  {
    var all := groups + [last];
    if LabelsDistinct(all) {
      forall i, j | 0 <= i < j < |groups| ensures SourceLabel(groups[i]) != SourceLabel(groups[j]) {
        assert all[i] == groups[i] && all[j] == groups[j];
      }
      forall g | g in groups ensures SourceLabel(g) != SourceLabel(last) {
        var i :| 0 <= i < |groups| && groups[i] == g;
        assert all[i] == g && all[|groups|] == last;
      }
    }
  }

  lemma {:induction false} BySourceSum(groups: seq<Option<string>>, counts: map<Option<string>, nat>)
    requires forall g :: g in groups ==> g in counts && counts[g] > 0
    ensures Sum(BySource(groups, counts)) <= SumOf(groups, counts)
    ensures Sum(BySource(groups, counts)) == SumOf(groups, counts) <==> LabelsDistinct(groups)
  {
    if groups != [] {
      var init, last := groups[..|groups| - 1], groups[|groups| - 1];
      assert groups == init + [last];
      BySourceSum(init, counts);
      BySourceKeys(init, counts);
      DistinctSnoc(init, last);
      SumUpdate(BySource(init, counts), SourceLabel(last), counts[last]);
    }
  }

  /** The three stored values that are all published under "none". */
  const NAMELESS: set<Option<string>> := {None, Some(""), Some("none")}

  /** No two of the nameless sources occur together. */
  ghost predicate OneNameless(counts: map<Option<string>, nat>) {
    forall a, b :: a in counts && b in counts && a in NAMELESS && b in NAMELESS ==> a == b
  }

  /** The per-source counts add up to the total exactly when no two sources share the label "none". */
  lemma BySourceAddsUp(sources: map<string, Option<string>>, groups: seq<Option<string>>)
    requires Enumerates(groups, Counts(sources))
    ensures Sum(BySource(groups, Counts(sources))) <= |sources|
    ensures Sum(BySource(groups, Counts(sources))) == |sources| <==> OneNameless(Counts(sources))
  {
    var counts := Counts(sources);
    CountsAddUp(sources);
    CountsPositive(sources);
    SumOfIsSum(groups, counts);
    BySourceSum(groups, counts);
    NamelessOrDistinct(groups, counts);
  }

  lemma SameLabel(a: Option<string>, b: Option<string>)
    ensures a != b && SourceLabel(a) == SourceLabel(b) ==> a in NAMELESS && b in NAMELESS
  {
  }

  lemma NamelessOrDistinct(groups: seq<Option<string>>, counts: map<Option<string>, nat>)
    requires Enumerates(groups, counts)
    ensures LabelsDistinct(groups) <==> OneNameless(counts)
  {
    if LabelsDistinct(groups) {
      forall a, b | a in counts && b in counts && a in NAMELESS && b in NAMELESS ensures a == b {
        var i :| 0 <= i < |groups| && groups[i] == a;
        var j :| 0 <= j < |groups| && groups[j] == b;
        assert SourceLabel(groups[i]) == "none" == SourceLabel(groups[j]);
      }
    }
    if OneNameless(counts) {
      forall i, j | 0 <= i < j < |groups| ensures SourceLabel(groups[i]) != SourceLabel(groups[j]) {
        assert groups[i] in counts && groups[j] in counts && groups[i] != groups[j];
        SameLabel(groups[i], groups[j]);
      }
    }
  }

  /** UNNEST: every category of every row, with repetition. */
  ghost function Unnested(lists: map<string, seq<string>>): multiset<string>
    decreases lists.Keys
  {
    if lists == map[] then multiset{}
    else var id :| id in lists; multiset(lists[id]) + Unnested(lists - {id})
  }

  /** Every category of the menu is listed, 0 when nothing matches, and any stored one besides. */
  ghost function ByCategory(lists: map<string, seq<string>>): map<string, nat> {
    var counted := Unnested(lists);
    var shown := (set c | c in TASK_CATEGORIES) + (set c | c in counted);
    map c | c in shown :: counted[c]
  }

  function Lengths(lists: map<string, seq<string>>): map<string, nat> {
    map id | id in lists :: |lists[id]|
  }

  lemma {:induction false} UnnestedSize(lists: map<string, seq<string>>)
    ensures |Unnested(lists)| == Sum(Lengths(lists))
    decreases lists.Keys
  {
    if lists == map[] {
      assert Lengths(lists) == map[];
    } else {
      var id :| id in lists && Unnested(lists) == multiset(lists[id]) + Unnested(lists - {id});
      SumRemove(Lengths(lists), id);
      assert Lengths(lists) - {id} == Lengths(lists - {id});
      UnnestedSize(lists - {id});
    }
  }

  lemma {:induction false} SumOfMultiset(bag: multiset<string>, shown: set<string>)
    requires forall c :: c in bag ==> c in shown
    ensures Sum(map c | c in shown :: bag[c]) == |bag|
    decreases shown
  {
    var m := map c | c in shown :: bag[c];
    if shown == {} {
      assert bag == multiset{};
      assert m == map[];
    } else {
      var c :| c in shown;
      var fewer := bag[c := 0];
      SumRemove(m, c);
      assert m - {c} == map x | x in shown - {c} :: fewer[x];
      SumOfMultiset(fewer, shown - {c});
      assert |bag| == |fewer| + bag[c] by {
        assert bag == fewer + (multiset{}[c := bag[c]]);
      }
    }
  }

  /** The per-category counts add up to the total length of the matching rows' category lists. */
  lemma ByCategoryAddsUp(lists: map<string, seq<string>>)
    ensures Sum(ByCategory(lists)) == Sum(Lengths(lists))
  {
    var counted := Unnested(lists);
    SumOfMultiset(counted, (set c | c in TASK_CATEGORIES) + (set c | c in counted));
    UnnestedSize(lists);
  }

  /** The rows the facet query counts, chosen by its own reading of the query. */
  function Counted(engine: Engine, m: Moment, f: Filter, q: Option<string>): set<Id> {
    if !Cursors.Searching(q) then
      set id | id in m.table && Matches(engine, f, m.table[id], m.now)
    else
      var hits := set id | id in m.table && Matches(engine, f, m.table[id], m.now)
                           && engine.fullText(m.table[id].content, q.value);
      if hits != {} then hits
      else if engine.trigramAvailable then
        set id | id in m.table && Matches(engine, f, m.table[id], m.now) && engine.similar(m.table[id].content, q.value)
      else {}
  }

  datatype FacetCounts = FacetCounts(
    total: nat, byCategory: map<string, nat>, byType: map<string, nat>, byNetwork: map<string, nat>,
    bySource: map<string, nat>)

  function SourcesOf(m: Moment, ids: set<Id>): map<string, Option<string>>
    requires ids <= m.table.Keys
  {
    map id | id in ids :: m.table[id].source
  }

  function TypesOf(m: Moment, ids: set<Id>): map<string, string>
    requires ids <= m.table.Keys
  {
    map id | id in ids :: m.table[id].content.listingType
  }

  /** Each listing's payment networks, once each. */
  function NetworksOf(m: Moment, ids: set<Id>): map<string, set<string>>
    requires ids <= m.table.Keys
  {
    map id | id in ids :: set p <- m.table[id].content.paymentOptions :: p.network
  }

  function Holding(networks: map<string, set<string>>, n: string): set<string> {
    set id | id in networks && n in networks[id]
  }

  function AllNetworks(networks: map<string, set<string>>): set<string> {
    set id, n | id in networks && n in networks[id] :: n
  }

  /** COUNT(DISTINCT id) over every payment option. */
  function ByNetwork(networks: map<string, set<string>>): map<string, nat> {
    map n | n in AllNetworks(networks) :: |Holding(networks, n)|
  }

  function CategoriesOf(m: Moment, ids: set<Id>): map<string, seq<string>>
    requires ids <= m.table.Keys
  {
    map id | id in ids :: m.table[id].content.taskCategories
  }

  /** `groups` is the order in which the database returns the source groups. */
  ghost function Facet(engine: Engine, m: Moment, f: Filter, q: Option<string>,
                       groups: seq<Option<string>>): FacetCounts
    requires Enumerates(groups, Counts(SourcesOf(m, Counted(engine, m, f, q))))
  {
    var ids := Counted(engine, m, f, q);
    FacetCounts(|ids|, ByCategory(CategoriesOf(m, ids)), Counts(TypesOf(m, ids)), ByNetwork(NetworksOf(m, ids)),
                BySource(groups, Counts(SourcesOf(m, ids))))
  }

  /** Facets and the first search page count the same rows, in all three modes. */
  lemma FacetsAgreeWithSearch(engine: Engine, m: Moment, f: Filter, q: Option<string>, limit: nat, offset: nat)
    ensures |Counted(engine, m, f, q)| == ListListings(engine, m, f, q, limit, offset, None).total
  {
    var view := ViewAt(engine, m, f, QueryText(q), FirstMode(engine, m, f, q));
    assert Counted(engine, m, f, q) == view.Keys by {
      if Cursors.Searching(q) {
        var ranked := ViewAt(engine, m, f, q.value, ByRank);
        var hits := set id | id in m.table && Matches(engine, f, m.table[id], m.now)
                             && engine.fullText(m.table[id].content, q.value);
        assert hits == ranked.Keys;
        assert |ranked| == |ranked.Keys|;
        assert hits == {} <==> |ranked| == 0;
      }
    }
    assert |view| == |view.Keys|;
  }

  /** Nothing is lost or counted twice between the facets and the search total. */
  lemma FacetsConserveRows(engine: Engine, m: Moment, f: Filter, q: Option<string>, limit: nat,
                           groups: seq<Option<string>>)
    requires Enumerates(groups, Counts(SourcesOf(m, Counted(engine, m, f, q))))
    ensures var facet, ids := Facet(engine, m, f, q, groups), Counted(engine, m, f, q);
            && facet.total == ListListings(engine, m, f, q, limit, 0, None).total
            && Sum(facet.byType) == facet.total
            && Sum(facet.byCategory) == Sum(Lengths(CategoriesOf(m, ids)))
            && (Sum(facet.bySource) == facet.total <==> OneNameless(Counts(SourcesOf(m, ids))))
  {
    var ids := Counted(engine, m, f, q);
    FacetsAgreeWithSearch(engine, m, f, q, limit, 0);
    CountsAddUp(TypesOf(m, ids));
    assert TypesOf(m, ids).Keys == ids && SourcesOf(m, ids).Keys == ids;
    assert |TypesOf(m, ids)| == |ids| == |SourcesOf(m, ids)|;
    BySourceAddsUp(SourcesOf(m, ids), groups);
    ByCategoryAddsUp(CategoriesOf(m, ids));
  }
}
