/** The database: one statement, or one transaction, per method, each taking effect at once. */
module Database {
  import opened Wrappers
  import opened Listings
  import opened Statements

  datatype DbError = UniqueViolation

  /** Why and when an endpoint of a source was put on the do-not-import list. */
  datatype Removal = Removal(reason: string, at: Time)

  /** The active offering, other than `except`, that already has this endpoint and owner. */
  predicate IsDuplicate(t: Table, id: Id, key: string, owner: string, except: Option<Id>, isTest: bool) {
    && id in t && Guarded(t[id]) && t[id].endpointKey == key && Lower(t[id].submittedBy) == Lower(owner)
    && t[id].isTest == isTest && except != Some(id)
  }

  lemma {:induction false} OldestExists(t: Table, ids: set<Id>)
    requires ids != {} && ids <= t.Keys
    ensures exists id :: id in ids && forall other :: other in ids ==> t[id].createdAt <= t[other].createdAt
  {
    var e :| e in ids;
    var rest := ids - {e};
    if rest == {} {
      assert ids == {e};
    } else {
      OldestExists(t, rest);
      var m :| m in rest && forall other :: other in rest ==> t[m].createdAt <= t[other].createdAt;
      var best := if t[m].createdAt <= t[e].createdAt then m else e;
      forall other | other in ids ensures t[best].createdAt <= t[other].createdAt {
        assert other == e || other in rest;
      }
    }
  }

  class Database {
    const norm: string -> string
    var listings: Table
    var doNotImport: map<SourceKey, Removal>

    /** What the two unique indexes enforce. */
    ghost predicate Valid()
      reads this
    {
      IndexOk(listings)
    }

    constructor (norm: string -> string)
      ensures Valid()
      ensures this.norm == norm && listings == map[] && doNotImport == map[]
    {
      this.norm := norm;
      listings, doNotImport := map[], map[];
    }

    // ---- Routes ----

    /** A new row never starts with a heartbeat or a missing mark, and its key comes from its URL. */
    method CreateListing(id: Id, row: Row) returns (r: Result<Row, DbError>)
      requires Valid()
      modifies this`listings
      ensures Valid()
      ensures var stored := row.(endpointKey := norm(row.content.endpointUrl), lastSeenAt := None,
                                 missingSince := None);
              && listings == Inserted(old(listings), id, stored)
              && (r.Ok? <==> id !in old(listings) && IndexOk(old(listings)[id := stored]))
              && (r.Ok? ==> r.value == stored && listings == old(listings)[id := stored])
              && (r.Err? ==> listings == old(listings))
    {
      var stored := row.(endpointKey := norm(row.content.endpointUrl), lastSeenAt := None, missingSince := None);
      if Insertable(listings, id, stored) {
        listings := listings[id := stored];
        return Ok(stored);
      }
      return Err(UniqueViolation);
    }

    method FindActiveDuplicate(url: string, owner: string, except: Option<Id>, isTest: bool) returns (r: Option<Id>)
      ensures r.Some? ==>
                && r.value in listings && Some(r.value) != except
                && var row := listings[r.value];
                   && row.status == Active && row.content.listingType == "offering" && row.isTest == isTest
                   && row.endpointKey == norm(url) && Lower(row.submittedBy) == Lower(owner)
      ensures r.None? ==> forall id :: id in listings && Some(id) != except ==>
                var row := listings[id];
                row.status == Active && row.content.listingType == "offering" && row.isTest == isTest ==>
                  row.endpointKey == norm(url) ==> Lower(row.submittedBy) != Lower(owner)
      ensures r.Some? ==> IsDuplicate(listings, r.value, norm(url), owner, except, isTest)
      ensures r.None? ==> forall id :: id in listings ==> !IsDuplicate(listings, id, norm(url), owner, except, isTest)
    {
      if id :| id in listings && IsDuplicate(listings, id, norm(url), owner, except, isTest) {
        return Some(id);
      }
      return None;
    }

    /** None when there is no such listing. */
    method UpdateListing(id: Id, patch: Patch, now: Time) returns (r: Result<Option<Row>, DbError>)
      requires Valid()
      modifies this`listings
      ensures Valid()
      ensures listings == Updated(norm, old(listings), id, patch, now)
      ensures id !in old(listings) ==> r == Ok(None)
      ensures id in old(listings) ==>
                var was := old(listings)[id];
                var row := was.(
                  content := PatchedContent(was.content, patch),
                  endpointKey := if patch.endpointUrl.Some? then norm(patch.endpointUrl.value) else was.endpointKey,
                  status := if patch.status.Some? then patch.status.value else was.status, updatedAt := now);
                if IndexOk(old(listings)[id := row])
                then r == Ok(Some(row)) && listings == old(listings)[id := row]
                else r == Err(UniqueViolation) && listings == old(listings)
    {
      if id !in listings { return Ok(None); }
      var row := PatchedRow(norm, listings[id], patch, now);
      if !IndexOk(listings[id := row]) { return Err(UniqueViolation); }
      listings := listings[id := row];
      return Ok(Some(row));
    }

    method SetListingStatus(id: Id, status: Status, now: Time) returns (r: Result<Option<Row>, DbError>)
      requires Valid()
      modifies this`listings
      ensures Valid()
      ensures listings == Updated(norm, old(listings), id, NO_PATCH.(status := Some(status)), now)
      ensures id !in old(listings) ==> r == Ok(None) && listings == old(listings)
      ensures id in old(listings) ==>
                var row := old(listings)[id].(status := status, updatedAt := now);
                if IndexOk(old(listings)[id := row])
                then r == Ok(Some(row)) && listings == old(listings)[id := row]
                else r == Err(UniqueViolation) && listings == old(listings)
    {
      ghost var was := listings;
      r := UpdateListing(id, NO_PATCH.(status := Some(status)), now);
      assert id in was ==>
          PatchedRow(norm, was[id], NO_PATCH.(status := Some(status)), now) ==
          was[id].(status := status, updatedAt := now);
    }

    /** None when nothing was updated. */
    method RecordHeartbeat(id: Id, now: Time, cutoff: Time) returns (r: Result<Option<Row>, DbError>)
      requires Valid()
      modifies this`listings
      ensures Valid()
      ensures listings == Beaten(old(listings), id, now, cutoff)
      ensures var was := old(listings);
              var lands := && id in was && was[id].status == Active
                           && (was[id].lastSeenAt.None? || was[id].lastSeenAt.value <= cutoff);
              if lands
              then listings == was[id := was[id].(lastSeenAt := Some(now))] && r == Ok(Some(listings[id]))
              else listings == was && r == Ok(None)
    {
      if !MayBeat(listings, id, cutoff) { return Ok(None); }
      BeatKeepsIndexes(listings, id, now);
      listings := listings[id := listings[id].(lastSeenAt := Some(now))];
      return Ok(Some(listings[id]));
    }

    /** None when there is no such listing or it is claimed already. */
    method ClaimListing(id: Id, owner: string, now: Time) returns (r: Result<Option<Row>, DbError>)
      requires Valid()
      modifies this`listings
      ensures Valid()
      ensures listings == Claimed(old(listings), id, owner, now)
      ensures id !in old(listings) || old(listings)[id].claimed ==> r == Ok(None) && listings == old(listings)
      ensures id in old(listings) && !old(listings)[id].claimed ==>
                var row := old(listings)[id].(submittedBy := owner, claimed := true, updatedAt := now);
                if IndexOk(old(listings)[id := row])
                then r == Ok(Some(row)) && listings == old(listings)[id := row]
                else r == Err(UniqueViolation) && listings == old(listings)
    {
      if !Claimable(listings, id) { return Ok(None); }
      var row := ClaimedRow(listings[id], owner, now);
      if !IndexOk(listings[id := row]) { return Err(UniqueViolation); }
      listings := listings[id := row];
      return Ok(Some(row));
    }

    /** One transaction: the row goes and its source and endpoint are put on the list, or neither. */
    method RemoveImportedListing(id: Id, reason: string, now: Time) returns (r: Option<Row>)
      requires Valid()
      modifies this`listings, this`doNotImport
      ensures Valid()
      ensures r == if id in old(listings) && old(listings)[id].source.Some? then Some(old(listings)[id]) else None
      ensures listings == if r.Some? then old(listings) - {id} else old(listings)
      ensures doNotImport == if r.Some?
                then old(doNotImport)[(r.value.source.value, norm(r.value.content.endpointUrl)) := Removal(reason, now)]
                else old(doNotImport)
    {
      if !Removable(listings, id) { return None; }
      var row := listings[id];
      listings := listings - {id};
      doNotImport := doNotImport[(row.source.value, norm(row.content.endpointUrl)) := Removal(reason, now)];
      return Some(row);
    }

    method PurgeExpiredTestListings(cutoff: Time, limit: nat) returns (gone: set<Id>)
      requires Valid()
      modifies this`listings
      ensures Valid()
      ensures IsPurge(old(listings), gone, cutoff, limit)
      ensures gone <= old(listings).Keys && |gone| <= limit
      ensures forall id <- gone :: old(listings)[id].isTest && old(listings)[id].createdAt < cutoff
      ensures forall id :: id in listings && listings[id].isTest && listings[id].createdAt < cutoff ==>
                |gone| == limit && forall other <- gone :: old(listings)[other].createdAt <= listings[id].createdAt
      ensures listings == old(listings) - gone
    {
      gone := {};
      var rest := set id | id in listings && Expired(listings[id], cutoff);
      while |gone| < limit && rest != {}
        invariant listings == old(listings)
        invariant forall id :: id in listings && Expired(listings[id], cutoff) <==> id in gone || id in rest
        invariant gone !! rest && |gone| <= limit
        invariant forall a, b :: a in gone && b in rest ==> listings[a].createdAt <= listings[b].createdAt
        decreases |rest|
      {
        OldestExists(listings, rest);
        var id :| id in rest && forall other :: other in rest ==> listings[id].createdAt <= listings[other].createdAt;
        gone, rest := gone + {id}, rest - {id};
      }
      listings := listings - gone;
    }

    // ---- Imports ----

    method DoNotImportKeys(source: string, urls: seq<string>) returns (keys: set<string>)
      ensures forall key :: key in keys <==>
                (source, key) in doNotImport && exists i :: 0 <= i < |urls| && norm(urls[i]) == key
    {
      var seen := set i | 0 <= i < |urls| :: norm(urls[i]);
      keys := set key | key in seen && (source, key) in doNotImport;
    }

    method ExistingImportListings(source: string, urls: seq<string>) returns (existing: map<string, bool>)
      requires Valid()
      ensures forall key :: key in existing <==>
                Known(listings, (source, key)) && exists i :: 0 <= i < |urls| && norm(urls[i]) == key
      ensures forall key, id :: key in existing && At(listings, id, (source, key)) ==>
                  existing[key] == listings[id].claimed
    {
      existing := map[];
      for i := 0 to |urls|
        invariant forall key :: key in existing <==>
                    Known(listings, (source, key)) && exists j :: 0 <= j < i && norm(urls[j]) == key
        invariant forall key, id :: key in existing && At(listings, id, (source, key)) ==>
                      existing[key] == listings[id].claimed
      {
        var k := (source, norm(urls[i]));
        if id :| id in listings && At(listings, id, k) {
          forall other | At(listings, other, k) ensures other == id { KeyIsUnique(listings, other, id, k); }
          existing := existing[k.1 := listings[id].claimed];
        }
      }
    }

    /** The row stored, and whether it was inserted. */
    method ImportUpsert(r: ImportRow, base: Option<string>) returns (res: Result<(Row, bool), DbError>)
      requires Valid()
      modifies this`listings
      ensures Valid()
      ensures res.Ok? <==> UpsertOk(norm, base, old(listings), r)
      ensures res.Ok? ==> listings == Upserted(norm, base, old(listings), r)
      ensures res.Ok? ==> exists id :: id in listings && At(listings, id, KeyOf(norm, r)) && listings[id] == res.value.0
      ensures res.Ok? ==> res.value.0.source == Some(r.source) && res.value.0.endpointKey == norm(r.content.endpointUrl)
      ensures res.Ok? ==> res.value.0.missingSince.None? && res.value.0.lastSyncedAt == Some(r.at)
      ensures res.Ok? ==> res.value.1 == !Known(old(listings), KeyOf(norm, r))
      ensures res.Err? ==> listings == old(listings)
    {
      var k := KeyOf(norm, r);
      ghost var was := listings;
      UpsertEffect(norm, base, listings, r);
      if id :| id in listings && At(listings, id, k) {
        var row := RefreshedRow(base, id, listings[id], r.content, r.at);
        forall other | At(listings, other, k) ensures other == id { KeyIsUnique(listings, other, id, k); }
        assert Upserted(norm, base, listings, r) == listings[id := row];
        if !IndexOk(listings[id := row]) { return Err(UniqueViolation); }
        listings := listings[id := row];
        assert At(listings, id, k);
        return Ok((row, false));
      }
      var row := FreshRow(norm, base, r.id, r.content, r.source, r.at);
      if r.id in listings || !IndexOk(listings[r.id := row]) { return Err(UniqueViolation); }
      listings := listings[r.id := row];
      assert At(listings, r.id, k);
      return Ok((row, true));
    }

    /** What MarkMissing would mark; writes nothing. */
    method PreviewMissing(source: string, urls: seq<string>) returns (ids: set<Id>)
      ensures forall id :: id in ids <==>
                && id in listings && listings[id].source == Some(source) && listings[id].status == Active
                && listings[id].missingSince.None?
                && forall i :: 0 <= i < |urls| ==> norm(urls[i]) != listings[id].endpointKey
      ensures ids == VanishedIds(listings, source, set i | 0 <= i < |urls| :: norm(urls[i]))
    {
      VanishedIs(norm, listings, source, urls);
      var seen := set i | 0 <= i < |urls| :: norm(urls[i]);
      ids := set id | id in listings && Vanished(listings[id], source, seen);
    }

    method MarkMissing(source: string, urls: seq<string>, now: Time) returns (ids: set<Id>)
      requires Valid()
      modifies this`listings
      ensures Valid()
      ensures forall id :: id in ids <==>
                && id in old(listings) && old(listings)[id].source == Some(source)
                && old(listings)[id].status == Active && old(listings)[id].missingSince.None?
                && forall i :: 0 <= i < |urls| ==> norm(urls[i]) != old(listings)[id].endpointKey
      ensures listings.Keys == old(listings).Keys
      ensures forall id :: id in listings ==>
                listings[id] == if id in ids then old(listings)[id].(missingSince := Some(now)) else old(listings)[id]
      ensures ids == VanishedIds(old(listings), source, set i | 0 <= i < |urls| :: norm(urls[i]))
      ensures listings == Marked(old(listings), source, set i | 0 <= i < |urls| :: norm(urls[i]), now)
    {
      var seen := set i | 0 <= i < |urls| :: norm(urls[i]);
      MarkKeepsIndexes(listings, source, seen, now);
      ids := PreviewMissing(source, urls);
      listings := map id | id in listings :: if id in ids then listings[id].(missingSince := Some(now))
                                             else listings[id];
      assert listings == Marked(old(listings), source, seen, now);
    }
  }

  /** Which listings of a source have vanished, by their columns. */
  lemma VanishedIs(norm: string -> string, t: Table, source: string, urls: seq<string>)
    ensures forall id :: id in VanishedIds(t, source, set i | 0 <= i < |urls| :: norm(urls[i])) <==>
              && id in t && t[id].source == Some(source) && t[id].status == Active && t[id].missingSince.None?
              && forall i :: 0 <= i < |urls| ==> norm(urls[i]) != t[id].endpointKey
  {
    var seen := set i | 0 <= i < |urls| :: norm(urls[i]);
    forall key ensures key !in seen <==> forall i :: 0 <= i < |urls| ==> norm(urls[i]) != key { }
  }

  // ---- What the routes' duplicate check decides ----

  lemma BeatKeepsIndexes(t: Table, id: Id, now: Time)
    requires IndexOk(t) && id in t
    ensures IndexOk(t[id := t[id].(lastSeenAt := Some(now))])
  {
    var after := t[id := t[id].(lastSeenAt := Some(now))];
    forall i, j | i in after && j in after && i != j
      ensures !SameImport(after[i], after[j]) && !SameOffering(after[i], after[j]) {
      assert !SameImport(t[i], t[j]) && !SameOffering(t[i], t[j]);
    }
  }

  /**
   Replacing or adding one row is refused exactly when another row shares its import key, or the
   row is an active offering that FindActiveDuplicate would report.
   */
  lemma IndexesRefuseExactlyClashes(t: Table, id: Id, row: Row)
    requires IndexOk(t)
    ensures IndexOk(t[id := row]) <==>
            && (forall other :: other in t && other != id ==> !SameImport(row, t[other]))
            && (Guarded(row) ==> forall other :: other in t ==>
                  !IsDuplicate(t, other, row.endpointKey, row.submittedBy, Some(id), row.isTest))
  {
    var after := t[id := row];
    if IndexOk(after) {
      forall other | other in t && other != id ensures !SameImport(row, t[other]) && !SameOffering(row, t[other]) {
        assert after[other] == t[other] && after[id] == row;
        assert !SameImport(after[id], after[other]) && !SameOffering(after[id], after[other]);
      }
    }
    if && (forall other :: other in t && other != id ==> !SameImport(row, t[other]))
       && (Guarded(row) ==> forall other :: other in t ==>
             !IsDuplicate(t, other, row.endpointKey, row.submittedBy, Some(id), row.isTest))
    {
      forall i, j | i in after && j in after && i != j
        ensures !SameImport(after[i], after[j]) && !SameOffering(after[i], after[j]) {
        assert i != id && j != id ==> !SameImport(t[i], t[j]) && !SameOffering(t[i], t[j]);
        assert i in t && i != id && Guarded(row) ==>
                 !IsDuplicate(t, i, row.endpointKey, row.submittedBy, Some(id), row.isTest);
        assert j in t && j != id && Guarded(row) ==>
                 !IsDuplicate(t, j, row.endpointKey, row.submittedBy, Some(id), row.isTest);
      }
    }
  }
}
