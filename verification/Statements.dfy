/**
 The SQL statements that change the `listings` table, each one atomic, and the two partial unique
 indexes that refuse a write. `norm` is the endpoint normaliser; everything here holds for any.
 */
module Statements {
  import opened Wrappers
  import opened Listings
  import Texts

  /** What identifies an imported listing: its source and its normalised endpoint. */
  type SourceKey = (string, string)

  predicate At(t: Table, id: Id, k: SourceKey) {
    id in t && t[id].source == Some(k.0) && t[id].endpointKey == k.1
  }

  predicate Known(t: Table, k: SourceKey) {
    exists id :: id in t && At(t, id, k)
  }

  predicate Guarded(row: Row) {
    row.status.Active? && row.content.listingType == GUARDED_TYPE
  }

  predicate SameImport(a: Row, b: Row) {
    a.source.Some? && a.source == b.source && a.endpointKey == b.endpointKey
  }

  predicate SameOffering(a: Row, b: Row) {
    && Guarded(a) && Guarded(b)
    && a.isTest == b.isTest && a.endpointKey == b.endpointKey && Lower(a.submittedBy) == Lower(b.submittedBy)
  }

  /** listings_source_endpoint_uniq. */
  predicate SourceUnique(t: Table) {
    forall i, j :: i in t && j in t && i != j ==> !SameImport(t[i], t[j])
  }

  /** listings_active_offering_scope_endpoint_owner_uniq. */
  predicate OfferingUnique(t: Table) {
    forall i, j :: i in t && j in t && i != j ==> !SameOffering(t[i], t[j])
  }

  predicate IndexOk(t: Table) {
    SourceUnique(t) && OfferingUnique(t)
  }

  /** A write takes effect only if both indexes still hold after it. */
  function Guard(before: Table, after: Table): Table {
    if IndexOk(after) then after else before
  }

  // ---- Routes ----

  /** An INSERT with a new primary key. */
  predicate Insertable(t: Table, id: Id, row: Row) {
    id !in t && IndexOk(t[id := row])
  }

  function Inserted(t: Table, id: Id, row: Row): Table {
    if Insertable(t, id, row) then t[id := row] else t
  }

  /** Which columns a PATCH sets, and to what. */
  datatype Patch = Patch(
    name: Option<string>, description: Option<string>, listingType: Option<string>,
    taskCategories: Option<seq<string>>, endpointUrl: Option<string>, paymentWallet: Option<string>,
    pricingModel: Option<Option<string>>, pricingAmount: Option<Option<string>>,
    paymentOptions: Option<seq<PaymentOption>>, erc8004Identity: Option<Option<string>>,
    verificationAgentId: Option<Option<string>>, outputSchema: Option<Option<string>>,
    verification: Option<Option<string>>, templateUrl: Option<Option<string>>, status: Option<Status>)

  const NO_PATCH := Patch(None, None, None, None, None, None, None, None, None, None, None, None, None, None, None)

  function PatchedContent(c: Content, p: Patch): Content {
    Content(
      GetOr(p.name, c.name), GetOr(p.description, c.description), GetOr(p.listingType, c.listingType),
      GetOr(p.taskCategories, c.taskCategories), GetOr(p.endpointUrl, c.endpointUrl),
      GetOr(p.paymentWallet, c.paymentWallet), GetOr(p.pricingModel, c.pricingModel),
      GetOr(p.pricingAmount, c.pricingAmount), GetOr(p.paymentOptions, c.paymentOptions),
      GetOr(p.erc8004Identity, c.erc8004Identity), GetOr(p.verificationAgentId, c.verificationAgentId),
      c.sourceUrl, GetOr(p.outputSchema, c.outputSchema), GetOr(p.verification, c.verification),
      GetOr(p.templateUrl, c.templateUrl))
  }

  /** Every column the patch names has the value it names. */
  predicate Agrees(p: Patch, c: Content) {
    && (p.name.Some? ==> p.name.value == c.name)
    && (p.description.Some? ==> p.description.value == c.description)
    && (p.listingType.Some? ==> p.listingType.value == c.listingType)
    && (p.taskCategories.Some? ==> p.taskCategories.value == c.taskCategories)
    && (p.endpointUrl.Some? ==> p.endpointUrl.value == c.endpointUrl)
    && (p.paymentWallet.Some? ==> p.paymentWallet.value == c.paymentWallet)
    && (p.pricingModel.Some? ==> p.pricingModel.value == c.pricingModel)
    && (p.pricingAmount.Some? ==> p.pricingAmount.value == c.pricingAmount)
    && (p.paymentOptions.Some? ==> p.paymentOptions.value == c.paymentOptions)
    && (p.erc8004Identity.Some? ==> p.erc8004Identity.value == c.erc8004Identity)
    && (p.verificationAgentId.Some? ==> p.verificationAgentId.value == c.verificationAgentId)
    && (p.outputSchema.Some? ==> p.outputSchema.value == c.outputSchema)
    && (p.verification.Some? ==> p.verification.value == c.verification)
    && (p.templateUrl.Some? ==> p.templateUrl.value == c.templateUrl)
  }

  lemma PatchTakes(c: Content, p: Patch)
    ensures Agrees(p, PatchedContent(c, p))
  { }

  lemma AgreeingPatchKeeps(c: Content, p: Patch)
    requires Agrees(p, c)
    ensures PatchedContent(c, p) == c
  { }

  /** Each column a PATCH names takes the value it names, every other stays, and nothing moves exactly if all had it. */
  lemma PatchSetsWhatItNames(c: Content, p: Patch)
    ensures var after := PatchedContent(c, p);
            && after.name == (if p.name.Some? then p.name.value else c.name)
            && after.description == (if p.description.Some? then p.description.value else c.description)
            && after.listingType == (if p.listingType.Some? then p.listingType.value else c.listingType)
            && after.taskCategories == (if p.taskCategories.Some? then p.taskCategories.value else c.taskCategories)
            && after.endpointUrl == (if p.endpointUrl.Some? then p.endpointUrl.value else c.endpointUrl)
            && after.paymentWallet == (if p.paymentWallet.Some? then p.paymentWallet.value else c.paymentWallet)
            && after.pricingModel == (if p.pricingModel.Some? then p.pricingModel.value else c.pricingModel)
            && after.pricingAmount == (if p.pricingAmount.Some? then p.pricingAmount.value else c.pricingAmount)
            && after.paymentOptions == (if p.paymentOptions.Some? then p.paymentOptions.value else c.paymentOptions)
            && after.erc8004Identity == (if p.erc8004Identity.Some? then p.erc8004Identity.value else c.erc8004Identity)
            && after.verificationAgentId ==
                 (if p.verificationAgentId.Some? then p.verificationAgentId.value else c.verificationAgentId)
            && after.sourceUrl == c.sourceUrl
            && after.outputSchema == (if p.outputSchema.Some? then p.outputSchema.value else c.outputSchema)
            && after.verification == (if p.verification.Some? then p.verification.value else c.verification)
            && after.templateUrl == (if p.templateUrl.Some? then p.templateUrl.value else c.templateUrl)
    ensures PatchedContent(c, p) == c <==> Agrees(p, c)
  {
    PatchTakes(c, p);
    if Agrees(p, c) { AgreeingPatchKeeps(c, p); }
  }

  /** A changed URL gets its key recomputed in the same statement. */
  function PatchedRow(norm: string -> string, row: Row, p: Patch, now: Time): Row {
    row.(content := PatchedContent(row.content, p),
         endpointKey := if p.endpointUrl.Some? then norm(p.endpointUrl.value) else row.endpointKey,
         status := GetOr(p.status, row.status), updatedAt := now)
  }

  function Updated(norm: string -> string, t: Table, id: Id, p: Patch, now: Time): Table {
    if id in t then Guard(t, t[id := PatchedRow(norm, t[id], p, now)]) else t
  }

  /** Active, and the previous heartbeat, if any, is at or before the cutoff. */
  predicate MayBeat(t: Table, id: Id, cutoff: Time) {
    id in t && t[id].status.Active? && (t[id].lastSeenAt.Some? ==> t[id].lastSeenAt.value <= cutoff)
  }

  function Beaten(t: Table, id: Id, now: Time, cutoff: Time): Table {
    if MayBeat(t, id, cutoff) then Guard(t, t[id := t[id].(lastSeenAt := Some(now))]) else t
  }

  predicate Claimable(t: Table, id: Id) {
    id in t && !t[id].claimed
  }

  function ClaimedRow(row: Row, owner: string, now: Time): Row {
    row.(submittedBy := owner, claimed := true, updatedAt := now)
  }

  function Claimed(t: Table, id: Id, owner: string, now: Time): Table {
    if Claimable(t, id) then Guard(t, t[id := ClaimedRow(t[id], owner, now)]) else t
  }

  predicate Removable(t: Table, id: Id) {
    id in t && t[id].source.Some?
  }

  predicate Expired(row: Row, cutoff: Time) {
    row.isTest && row.createdAt < cutoff
  }

  /** The oldest expired test listings, at most `limit` of them; ties are the database's choice. */
  ghost predicate IsPurge(t: Table, gone: set<Id>, cutoff: Time, limit: nat) {
    && (forall id :: id in gone ==> id in t && Expired(t[id], cutoff))
    && |gone| <= limit
    && (forall id :: id in t && Expired(t[id], cutoff) && id !in gone ==>
          |gone| == limit && forall other :: other in gone ==> t[other].createdAt <= t[id].createdAt)
  }

  // ---- Imports ----

  /** A validated source record: everything else about a fresh import follows from these. */
  datatype ImportRow = ImportRow(id: Id, source: string, content: Content, at: Time)

  function KeyOf(norm: string -> string, r: ImportRow): SourceKey {
    (r.source, norm(r.content.endpointUrl))
  }

  /** The board's own template link for a listing, where the listing has an output schema. */
  function Linked(base: Option<string>, id: Id, c: Content): Content {
    if base.None? then c
    else c.(templateUrl := if c.outputSchema.Some? then Some(TemplateLink(base.value, id)) else None)
  }

  /** Slashes that end the board's own URL do not count. */
  function TemplateLink(base: string, id: Id): string {
    Texts.RStrip(base, c => c == '/') + "/listings/" + id + "/template"
  }

  function FreshRow(norm: string -> string, base: Option<string>, id: Id, c: Content, source: string, at: Time): Row {
    Row(Linked(base, id, c), norm(c.endpointUrl), PLACEHOLDER, Active, false, at, at, None,
        false, Some(source), Some(at), Some(at), None)
  }

  /** Once claimed, a re-sync moves only the freshness columns. */
  function RefreshedRow(base: Option<string>, id: Id, row: Row, c: Content, at: Time): Row {
    var kept := row.(lastSyncedAt := Some(at), missingSince := None);
    if row.claimed then kept else kept.(content := Linked(base, id, c))
  }

  /** INSERT ... ON CONFLICT (source, endpoint_key) DO UPDATE, before the indexes are consulted. */
  ghost function Upserted(norm: string -> string, base: Option<string>, t: Table, r: ImportRow): Table {
    var k := KeyOf(norm, r);
    if Known(t, k) then
      var id :| id in t && At(t, id, k);
      t[id := RefreshedRow(base, id, t[id], r.content, r.at)]
    else t[r.id := FreshRow(norm, base, r.id, r.content, r.source, r.at)]
  }

  /** The upsert raises UniqueViolation unless this holds. */
  ghost predicate UpsertOk(norm: string -> string, base: Option<string>, t: Table, r: ImportRow) {
    (Known(t, KeyOf(norm, r)) || r.id !in t) && IndexOk(Upserted(norm, base, t, r))
  }

  /** Active, from this source, not marked yet, and not among the endpoints just seen. */
  predicate Vanished(row: Row, source: string, seen: set<string>) {
    row.source == Some(source) && row.status.Active? && row.missingSince.None? && row.endpointKey !in seen
  }

  function VanishedIds(t: Table, source: string, seen: set<string>): set<Id> {
    set id | id in t && Vanished(t[id], source, seen)
  }

  function Marked(t: Table, source: string, seen: set<string>, now: Time): Table {
    map id | id in t :: if Vanished(t[id], source, seen) then t[id].(missingSince := Some(now)) else t[id]
  }

  // ---- What the indexes and the statements say of the columns ----

  /** The two indexes by their columns. */
  lemma IndexesAre(t: Table)
    ensures IndexOk(t) <==> forall i, j :: i in t && j in t && i != j ==>
              && !(t[i].source.Some? && t[i].source == t[j].source && t[i].endpointKey == t[j].endpointKey)
              && !(&& t[i].status == Active == t[j].status
                   && t[i].content.listingType == "offering" == t[j].content.listingType
                   && t[i].isTest == t[j].isTest && t[i].endpointKey == t[j].endpointKey
                   && Lower(t[i].submittedBy) == Lower(t[j].submittedBy))
  {
    if IndexOk(t) {
      forall i, j | i in t && j in t && i != j ensures !SameImport(t[i], t[j]) && !SameOffering(t[i], t[j]) { }
    }
  }

  /** A listing as it is first imported: unclaimed, nobody's, active, real, and dated by the import. */
  lemma FreshRowIs(norm: string -> string, base: Option<string>, r: ImportRow)
    ensures var row := FreshRow(norm, base, r.id, r.content, r.source, r.at);
            && row.endpointKey == norm(r.content.endpointUrl) && row.source == Some(r.source)
            && !row.claimed && row.submittedBy == "0x0000000000000000000000000000000000000000"
            && row.status == Active && !row.isTest && row.lastSeenAt.None? && row.missingSince.None?
            && row.createdAt == row.updatedAt == r.at && row.importedAt == row.lastSyncedAt == Some(r.at)
            && row.content.(templateUrl := r.content.templateUrl) == r.content
            && row.content.templateUrl == (if base.None? then r.content.templateUrl
                                           else if r.content.outputSchema.None? then None
                                           else Some(TemplateLink(base.value, r.id)))
  { }

  /** What a re-sync leaves of a listing: when it was synced moves, and no mark stays; content only while unclaimed. */
  lemma RefreshedRowIs(base: Option<string>, id: Id, row: Row, c: Content, at: Time)
    ensures var after := RefreshedRow(base, id, row, c, at);
            && after.lastSyncedAt == Some(at) && after.missingSince.None?
            && after.(content := row.content, lastSyncedAt := row.lastSyncedAt, missingSince := row.missingSince) == row
            && (row.claimed ==> after.content == row.content)
            && (!row.claimed ==>
                  && after.content.(templateUrl := c.templateUrl) == c
                  && after.content.templateUrl == (if base.None? then c.templateUrl
                                                   else if c.outputSchema.None? then None
                                                   else Some(TemplateLink(base.value, id))))
  { }

  /** The template link names the listing, and slashes after the board's own URL make no difference. */
  lemma TemplateLinkIs(base: string, id: Id)
    requires base == "" || base[|base| - 1] != '/'
    ensures TemplateLink(base, id) == base + "/listings/" + id + "/template"
    ensures TemplateLink(base + "/", id) == TemplateLink(base, id)
  {
    assert (base + "/")[..|base|] == base;
  }

  // ---- What every statement keeps ----

  lemma KeyIsUnique(t: Table, i: Id, j: Id, k: SourceKey)
    requires SourceUnique(t) && At(t, i, k) && At(t, j, k)
    ensures i == j
  {
    assert SameImport(t[i], t[j]);
  }

  /** An upsert by its effect: the one row at the key, or a new one, and nothing else. */
  lemma UpsertEffect(norm: string -> string, base: Option<string>, t: Table, r: ImportRow)
    requires SourceUnique(t)
    ensures var k, after := KeyOf(norm, r), Upserted(norm, base, t, r);
            && (Known(t, k) ==> after.Keys == t.Keys)
            && (!Known(t, k) ==> after == t[r.id := FreshRow(norm, base, r.id, r.content, r.source, r.at)])
            && (forall id :: id in t && Known(t, k) ==>
                  after[id] == if At(t, id, k) then RefreshedRow(base, id, t[id], r.content, r.at) else t[id])
  {
    var k := KeyOf(norm, r);
    if Known(t, k) {
      var id :|
        && id in t && At(t, id, k)
        && Upserted(norm, base, t, r) == t[id := RefreshedRow(base, id, t[id], r.content, r.at)];
      forall other | At(t, other, k) ensures other == id { KeyIsUnique(t, id, other, k); }
    }
  }

  lemma UpsertKeys(norm: string -> string, base: Option<string>, t: Table, r: ImportRow)
    ensures Upserted(norm, base, t, r).Keys == if Known(t, KeyOf(norm, r)) then t.Keys else t.Keys + {r.id}
  { }

  /** The conflict target makes the first index impossible to trip. */
  lemma UpsertKeepsSources(norm: string -> string, base: Option<string>, t: Table, r: ImportRow)
    requires SourceUnique(t) && (Known(t, KeyOf(norm, r)) || r.id !in t)
    ensures SourceUnique(Upserted(norm, base, t, r))
  {
    UpsertEffect(norm, base, t, r);
    var k, after := KeyOf(norm, r), Upserted(norm, base, t, r);
    forall i, j | i in after && j in after && i != j ensures !SameImport(after[i], after[j]) {
      assert i in t && j in t ==> !SameImport(t[i], t[j]);
      assert !Known(t, k) ==> (i in t ==> !At(t, i, k)) && (j in t ==> !At(t, j, k));
    }
  }

  /** Which imports exist afterwards: those that did, and this one. */
  lemma UpsertKnows(norm: string -> string, base: Option<string>, t: Table, r: ImportRow, k: SourceKey)
    requires SourceUnique(t) && (Known(t, KeyOf(norm, r)) || r.id !in t)
    ensures Known(Upserted(norm, base, t, r), k) <==> Known(t, k) || k == KeyOf(norm, r)
  {
    UpsertEffect(norm, base, t, r);
    var after, own := Upserted(norm, base, t, r), KeyOf(norm, r);
    if Known(t, k) {
      var id :| id in t && At(t, id, k);
      assert At(after, id, k);
    }
    if !Known(t, own) { assert At(after, r.id, own); }
    if Known(after, k) {
      var id :| id in after && At(after, id, k);
      if id in t { assert At(t, id, k); }
    }
  }

  /** Marking touches nothing an index looks at. */
  lemma MarkKeepsIndexes(t: Table, source: string, seen: set<string>, now: Time)
    ensures SourceUnique(t) ==> SourceUnique(Marked(t, source, seen, now))
    ensures OfferingUnique(t) ==> OfferingUnique(Marked(t, source, seen, now))
    ensures forall k :: Known(Marked(t, source, seen, now), k) <==> Known(t, k)
  {
    var after := Marked(t, source, seen, now);
    forall i, j | i in t && j in t
      ensures SameImport(after[i], after[j]) == SameImport(t[i], t[j])
      ensures SameOffering(after[i], after[j]) == SameOffering(t[i], t[j]) { }
    forall k ensures Known(after, k) <==> Known(t, k) {
      forall id ensures At(after, id, k) <==> At(t, id, k) { }
    }
  }
}
