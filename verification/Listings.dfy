/** A listing as the `listings` table stores it, its last activity and whether it is stale. */
module Listings {
  import opened Wrappers

  /** Microseconds, the resolution of both PostgreSQL and Python times. */
  type Time = int
  type Id = string

  const SECOND: Time := 1_000_000
  const HEARTBEAT_MIN_INTERVAL: Time := 24 * 3600 * SECOND

  /** The one listing type that may not be duplicated. */
  const GUARDED_TYPE := "offering"

  /** Owner of an imported listing nobody has claimed; no key can sign for it. */
  const PLACEHOLDER := "0x0000000000000000000000000000000000000000"

  datatype Status = Active | Inactive

  /** `amount` is the decimal the option's text denotes. */
  datatype PaymentOption = PaymentOption(
    network: string, asset: string, payTo: string, amount: Option<real>, unit: Option<string>)

  /** What a re-sync may refresh while nobody has claimed the listing. JSON documents are kept as text. */
  datatype Content = Content(
    name: string, description: string, listingType: string, taskCategories: seq<string>,
    endpointUrl: string, paymentWallet: string, pricingModel: Option<string>, pricingAmount: Option<string>,
    paymentOptions: seq<PaymentOption>, erc8004Identity: Option<string>, verificationAgentId: Option<string>,
    sourceUrl: Option<string>, outputSchema: Option<string>, verification: Option<string>,
    templateUrl: Option<string>)

  datatype Row = Row(
    content: Content, endpointKey: string, submittedBy: string, status: Status, isTest: bool,
    createdAt: Time, updatedAt: Time, lastSeenAt: Option<Time>,
    claimed: bool, source: Option<string>, importedAt: Option<Time>, lastSyncedAt: Option<Time>,
    missingSince: Option<Time>)

  type Table = map<Id, Row>

  function Max(a: Time, b: Time): Time {
    if a < b then b else a
  }

  function LastActivity(row: Row): Time {
    Max(Max(row.createdAt, row.updatedAt), GetOr(row.lastSeenAt, row.createdAt))
  }

  predicate IsStale(row: Row, now: Time, staleAfter: Time) {
    row.missingSince.Some? || now - LastActivity(row) > staleAfter
  }

  function LowerChar(c: char): char {
    if 'A' <= c <= 'Z' then (c as int - 'A' as int + 'a' as int) as char else c
  }

  /** Lower case of ASCII text, which addresses are. */
  function Lower(s: string): string {
    seq(|s|, i requires 0 <= i < |s| => LowerChar(s[i]))
  }

  /** Two texts have one lower case exactly if they differ in no more than the case of ASCII letters. */
  lemma LowerSameIff(a: string, b: string)
    ensures Lower(a) == Lower(b) <==>
            && |a| == |b|
            && forall i :: 0 <= i < |a| ==>
                 || a[i] == b[i]
                 || ('A' <= a[i] <= 'Z' && b[i] as int == a[i] as int + 32)
                 || ('A' <= b[i] <= 'Z' && a[i] as int == b[i] as int + 32)
  {
    if |a| == |b| {
      forall i | 0 <= i < |a|
        ensures Lower(a)[i] == Lower(b)[i] <==>
                || a[i] == b[i]
                || ('A' <= a[i] <= 'Z' && b[i] as int == a[i] as int + 32)
                || ('A' <= b[i] <= 'Z' && a[i] as int == b[i] as int + 32)
      { }
      assert Lower(a) == Lower(b) <==> forall i :: 0 <= i < |a| ==> Lower(a)[i] == Lower(b)[i];
    } else {
      assert |Lower(a)| != |Lower(b)|;
    }
  }
}
