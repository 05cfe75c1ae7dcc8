/** `Account::get_balance` and `Account::get_locked_balance`: the free and
    locked amount of an asset in the spot account, matched ignoring ASCII case. */
module Account {
  import opened Wrappers
  import opened Strings
  import opened Types

  /** The spot account; only its balance list is used by the bot. */
  datatype Account = Account(balances: seq<Balance>)

  predicate Matches(b: Balance, asset: string) {
    EqIgnoreAsciiCase(b.asset, asset)
  }

  /** The index of the first balance whose asset matches, if any. */
  function FindBalance(bs: seq<Balance>, asset: string): (r: Option<nat>)
    ensures r.None? <==> forall i :: 0 <= i < |bs| ==> !Matches(bs[i], asset)
    ensures r.Some? ==> r.value < |bs| && Matches(bs[r.value], asset)
                        && forall j :: 0 <= j < r.value ==> !Matches(bs[j], asset)
  {
    if |bs| == 0 then None
    else if Matches(bs[0], asset) then Some(0)
    else
      match FindBalance(bs[1..], asset)
      case None => None
      case Some(i) => Some(i + 1)
  }

  /** The free amount of the first matching balance, or None when no asset matches. */
  function GetBalance(a: Account, asset: string): (r: Option<real>)
    ensures r.None? <==> forall i :: 0 <= i < |a.balances| ==> !Matches(a.balances[i], asset)
    ensures r.Some? ==> exists i :: 0 <= i < |a.balances| && Matches(a.balances[i], asset)
                          && r.value == a.balances[i].free
                          && forall j :: 0 <= j < i ==> !Matches(a.balances[j], asset)
  {
    match FindBalance(a.balances, asset)
    case None => None
    case Some(i) => Some(a.balances[i].free)
  }

  /** The locked amount of the first matching balance, or None when no asset matches. */
  function GetLockedBalance(a: Account, asset: string): (r: Option<real>)
    ensures r.None? <==> forall i :: 0 <= i < |a.balances| ==> !Matches(a.balances[i], asset)
    ensures r.Some? ==> exists i :: 0 <= i < |a.balances| && Matches(a.balances[i], asset)
                          && r.value == a.balances[i].locked
                          && forall j :: 0 <= j < i ==> !Matches(a.balances[j], asset)
  {
    match FindBalance(a.balances, asset)
    case None => None
    case Some(i) => Some(a.balances[i].locked)
  }

  /** Two queries that differ only in ASCII case find the same balance. */
  lemma {:induction false} FindIgnoresQueryCase(bs: seq<Balance>, x: string, y: string)
    requires Lower(x) == Lower(y)
    ensures FindBalance(bs, x) == FindBalance(bs, y)
  {
    if |bs| > 0 {
      FindIgnoresQueryCase(bs[1..], x, y);
    }
  }

  /** A matching balance put in front of the list shadows every later one. */
  lemma FrontBalanceWins(b: Balance, rest: seq<Balance>, asset: string)
    requires Matches(b, asset)
    ensures GetBalance(Account([b] + rest), asset) == Some(b.free)
  {
  }
}
