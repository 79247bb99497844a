/** Which upserts the offering index refuses: the conflict target resolves only the other one. */
module Refusals {
  import opened Wrappers
  import opened Listings
  import opened Statements
  import opened Database

  /**
   A re-sync of a listing is refused exactly when it would make an unclaimed active listing an
   offering that duplicates one of the same owner; a claimed listing's never is.
   */
  lemma ResyncRefusedIff(norm: string -> string, base: Option<string>, t: Table, r: ImportRow, id: Id)
    requires IndexOk(t) && At(t, id, KeyOf(norm, r))
    ensures UpsertOk(norm, base, t, r) <==>
            || t[id].claimed || t[id].status.Inactive? || r.content.listingType != GUARDED_TYPE
            || forall other :: other in t ==>
                   !IsDuplicate(t, other, t[id].endpointKey, t[id].submittedBy, Some(id), t[id].isTest)
  {
    var row := RefreshedRow(base, id, t[id], r.content, r.at);
    UpsertIs(norm, base, t, r, id);
    IndexesRefuseExactlyClashes(t, id, row);
    forall other | other in t && other != id ensures !SameImport(row, t[other]) {
      assert !SameImport(t[id], t[other]);
    }
    IndexesRefuseExactlyClashes(t, id, t[id]);
    assert t[id := t[id]] == t;
  }

  lemma UpsertIs(norm: string -> string, base: Option<string>, t: Table, r: ImportRow, id: Id)
    requires SourceUnique(t) && At(t, id, KeyOf(norm, r))
    ensures Upserted(norm, base, t, r) == t[id := RefreshedRow(base, id, t[id], r.content, r.at)]
  {
    forall other | At(t, other, KeyOf(norm, r)) ensures other == id { KeyIsUnique(t, id, other, KeyOf(norm, r)); }
  }

  /**
   A first import is refused exactly when its id is taken or it is an offering that another
   unclaimed import duplicates.
   */
  lemma FirstImportRefusedIff(norm: string -> string, base: Option<string>, t: Table, r: ImportRow)
    requires IndexOk(t) && !Known(t, KeyOf(norm, r)) && r.id !in t
    ensures UpsertOk(norm, base, t, r) <==>
            || r.content.listingType != GUARDED_TYPE
            || forall other :: other in t ==>
                   !IsDuplicate(t, other, norm(r.content.endpointUrl), PLACEHOLDER, None, false)
  {
    var row := FreshRow(norm, base, r.id, r.content, r.source, r.at);
    UpsertEffect(norm, base, t, r);
    IndexesRefuseExactlyClashes(t, r.id, row);
    forall other | other in t && other != r.id ensures !SameImport(row, t[other]) {
      assert !At(t, other, KeyOf(norm, r));
    }
    forall other | other in t
      ensures IsDuplicate(t, other, row.endpointKey, PLACEHOLDER, None, false) ==
              IsDuplicate(t, other, row.endpointKey, PLACEHOLDER, Some(r.id), false) { }
  }

  /** Two sources that both list one offering: the second upsert is refused, and the sync with it. */
  lemma TwoSourcesOneOffering(norm: string -> string, base: Option<string>, first: ImportRow, second: ImportRow)
    requires first.source != second.source && first.id != second.id
    requires first.content == second.content && first.content.listingType == GUARDED_TYPE
    ensures var t := Upserted(norm, base, map[], first);
            UpsertOk(norm, base, map[], first) && IndexOk(t) && !UpsertOk(norm, base, t, second)
  {
    var t := Upserted(norm, base, map[], first);
    UpsertEffect(norm, base, map[], first);
    UpsertKnows(norm, base, map[], first, KeyOf(norm, second));
    assert t == map[first.id := FreshRow(norm, base, first.id, first.content, first.source, first.at)];
    FirstImportRefusedIff(norm, base, t, second);
    assert IsDuplicate(t, first.id, norm(second.content.endpointUrl), PLACEHOLDER, None, false);
  }
}
