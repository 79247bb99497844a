/**
 The board's SQL expressions over activity and over payment options, by SQL's own rules: a value or a
 truth may be NULL, GREATEST skips NULLs, and NOT, AND and OR have three truths.
 */
module SqlRules {
  import opened Wrappers
  import opened Listings

  /** A truth of SQL; None is unknown. */
  type Truth = Option<bool>

  function Not(a: Truth): Truth {
    if a.None? then None else Some(!a.value)
  }

  function Or(a: Truth, b: Truth): Truth {
    if a == Some(true) || b == Some(true) then Some(true)
    else if a.None? || b.None? then None
    else Some(false)
  }

  function And(a: Truth, b: Truth): Truth {
    if a == Some(false) || b == Some(false) then Some(false)
    else if a.None? || b.None? then None
    else Some(true)
  }

  function IsNull<T>(v: Option<T>): Truth {
    Some(v.None?)
  }

  function IsNotNull<T>(v: Option<T>): Truth {
    Some(v.Some?)
  }

  function Coalesce<T>(v: Option<T>, other: Option<T>): Option<T> {
    if v.Some? then v else other
  }

  /** The greatest of the values that are not NULL. */
  function Greatest(values: seq<Option<Time>>): Option<Time> {
    if values == [] then None
    else
      var first, rest := values[0], Greatest(values[1..]);
      if first.None? then rest else if rest.None? || rest.value <= first.value then first else rest
  }

  function Minus(a: Option<Time>, b: Option<Time>): Option<Time> {
    if a.Some? && b.Some? then Some(a.value - b.value) else None
  }

  function Exceeds(a: Option<Time>, b: Option<Time>): Truth {
    if a.Some? && b.Some? then Some(a.value > b.value) else None
  }

  function Equals<T(==)>(a: Option<T>, b: Option<T>): Truth {
    if a.Some? && b.Some? then Some(a.value == b.value) else None
  }

  function AtMost(a: Option<real>, b: Option<real>): Truth {
    if a.Some? && b.Some? then Some(a.value <= b.value) else None
  }

  /** a = ANY(array). */
  function EqualsAny<T(==)>(a: Option<T>, values: set<T>): Truth {
    if a.None? then None else Some(a.value in values)
  }

  /** GREATEST(created_at, updated_at, COALESCE(last_seen_at, created_at)). */
  function ActivitySql(row: Row): Option<Time> {
    Greatest([Some(row.createdAt), Some(row.updatedAt), Coalesce(row.lastSeenAt, Some(row.createdAt))])
  }

  /** missing_from_source_since IS NOT NULL OR now() - activity > the threshold. */
  function StaleSql(row: Row, now: Time, staleAfter: Time): Truth {
    Or(IsNotNull(row.missingSince), Exceeds(Minus(Some(now), ActivitySql(row)), Some(staleAfter)))
  }

  /** A WHERE clause keeps the rows of which its condition is true, not those of which it is unknown. */
  predicate Keeps(condition: Truth) {
    condition == Some(true)
  }

  /** The SQL sort key is the `last_activity_at` the responses and the cursors show. */
  lemma ActivitySqlIsLastActivity(row: Row)
    ensures ActivitySql(row) == Some(LastActivity(row))
  {
    var seen := Coalesce(row.lastSeenAt, Some(row.createdAt));
    var all, two, one := [Some(row.createdAt), Some(row.updatedAt), seen], [Some(row.updatedAt), seen], [seen];
    assert all[1..] == two && two[1..] == one && one[1..] == [];
    assert Greatest(one) == seen;
    assert two[0] == Some(row.updatedAt) && Greatest(two) == Some(Max(row.updatedAt, seen.value));
    assert all[0] == Some(row.createdAt) && Greatest(all) == Some(Max(row.createdAt, Max(row.updatedAt, seen.value)));
  }

  /** Of every row at every time the SQL filter says what the `stale` field says, and NOT of it the opposite. */
  lemma StaleSqlIsStale(row: Row, now: Time, staleAfter: Time)
    ensures Keeps(StaleSql(row, now, staleAfter)) <==> IsStale(row, now, staleAfter)
    ensures Keeps(Not(StaleSql(row, now, staleAfter))) <==> !IsStale(row, now, staleAfter)
  {
    ActivitySqlIsLastActivity(row);
  }

  // ---- Payment options ----

  /** A network id or an asset address, neither of which holds the separator of a stablecoin key. */
  type Unbarred = s: string | '|' !in s witness ""

  function StablecoinKey(network: string, asset: string): string {
    network + "|" + Lower(asset)
  }

  function StablecoinKeys(coins: set<(Unbarred, Unbarred)>): set<string> {
    set coin <- coins :: StablecoinKey(coin.0, coin.1)
  }

  /**
   (network IS NULL OR po.network = network) AND (max_price IS NULL OR
   (po.network || '|' || lower(po.asset) = ANY(keys) AND po.amount <= max_price)).
   */
  function PayableSql(p: PaymentOption, network: Option<string>, maxPrice: Option<real>, keys: set<string>): Truth {
    And(Or(IsNull(network), Equals(Some(p.network), network)),
        Or(IsNull(maxPrice), And(EqualsAny(Some(StablecoinKey(p.network, p.asset)), keys), AtMost(p.amount, maxPrice))))
  }

  /** The option is in one of these coins: on its network, and of its asset whatever the letters' case. */
  predicate PaidInCoin(p: PaymentOption, coins: set<(Unbarred, Unbarred)>) {
    exists coin :: coin in coins && coin.0 == p.network && Lower(coin.1) == Lower(p.asset)
  }

  lemma BarSplits(a: string, b: string, c: string, d: string)
    requires '|' !in a && '|' !in b && a + "|" + b == c + "|" + d
    ensures a == c && b == d
  {
    var s := a + "|" + b;
    assert s[|c|] == '|';
    assert |c| == |a|;
    assert s[..|a|] == a && s[..|c|] == c && s[|a| + 1..] == b && s[|c| + 1..] == d;
  }

  lemma LowerKeepsBars(s: string)
    ensures '|' in Lower(s) <==> '|' in s
  {
    if '|' in s {
      var i :| 0 <= i < |s| && s[i] == '|';
      assert Lower(s)[i] == '|';
    }
  }

  /** A text can be the key of one coin only, so looking the key up is looking the coin up. */
  lemma KeyedIffInCoin(p: PaymentOption, coins: set<(Unbarred, Unbarred)>)
    ensures StablecoinKey(p.network, p.asset) in StablecoinKeys(coins) <==> PaidInCoin(p, coins)
  {
    if StablecoinKey(p.network, p.asset) in StablecoinKeys(coins) {
      var coin :| coin in coins && StablecoinKey(coin.0, coin.1) == StablecoinKey(p.network, p.asset);
      LowerKeepsBars(coin.1);
      BarSplits(coin.0, Lower(coin.1), p.network, Lower(p.asset));
    }
    if coin :| coin in coins && coin.0 == p.network && Lower(coin.1) == Lower(p.asset) {
      assert StablecoinKey(coin.0, coin.1) == StablecoinKey(p.network, p.asset);
    }
  }

  /** The SQL condition keeps exactly the options on the network asked for, in a stablecoin and within the cap. */
  lemma PayableSqlKeeps(p: PaymentOption, network: Option<string>, maxPrice: Option<real>,
                        coins: set<(Unbarred, Unbarred)>)
    ensures Keeps(PayableSql(p, network, maxPrice, StablecoinKeys(coins))) <==>
            && (network.Some? ==> p.network == network.value)
            && (maxPrice.Some? ==> p.amount.Some? && p.amount.value <= maxPrice.value && PaidInCoin(p, coins))
  {
    KeyedIffInCoin(p, coins);
  }
}
