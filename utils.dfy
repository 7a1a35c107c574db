/** The best-score check and the payout step (src/utils.rs).

    The leaderboard heap is passed in by shared reference and only iterated,
    so it is modelled as the sequence of its entries in iteration order; the
    bank balance query is a foreign call and arrives as a parameter. */
module Utils {

  import opened Wrappers
  import opened State
  import opened CosmWasm

  /** The fold behind `iter().min_by(|a, b| a.score.cmp(&b.score))`: starting
      from `acc`, each next entry replaces the running minimum only when the
      minimum compares `Greater` than it, so the first minimum is kept. Under
      `Reverse` the minimum is an entry of the HIGHEST raw score. */
  function MinByScoreFrom(acc: User, rest: seq<User>): (m: User)
    ensures m == acc || m in rest
    ensures Raw(acc) <= Raw(m)
    ensures forall i :: 0 <= i < |rest| ==> Raw(rest[i]) <= Raw(m)
    ensures (forall i :: 0 <= i < |rest| ==> Raw(rest[i]) <= Raw(acc)) ==> m == acc
    ensures m == acc || exists k :: 0 <= k < |rest| && rest[k] == m && Raw(acc) < Raw(m)
                                   && forall j :: 0 <= j < k ==> Raw(rest[j]) < Raw(m)
    decreases |rest|
  {
    if rest == [] then acc
    else
      var next := if CmpReverse(acc.score, rest[0].score) == Greater then rest[0] else acc;
      MinByScoreFrom(next, rest[1..])
  }

  /** `heap.iter().min_by(...)`: `None` on an empty heap, otherwise the first
      entry, in iteration order, with the highest raw score. */
  function MinByScore(heap: seq<User>): (r: Option<User>)
    ensures r.None? <==> heap == []
    ensures r.Some? ==> r.value in heap
    ensures r.Some? ==> forall i :: 0 <= i < |heap| ==> Raw(heap[i]) <= Raw(r.value)
    ensures r.Some? ==> exists k :: 0 <= k < |heap| && heap[k] == r.value
                                  && forall j :: 0 <= j < k ==> Raw(heap[j]) < Raw(r.value)
  {
    if heap == [] then None else Some(MinByScoreFrom(heap[0], heap[1..]))
  }

  /** `user_is_top`: whether `user` would be the new best entry. It compares
      `user` against the highest-scoring entry with `>` on `User`, which under
      `Reverse` means a strictly higher raw score; an empty heap has no best
      entry to beat, and the answer is then `false`. */
  function UserIsTop(heap: seq<User>, user: User): (top: bool)
    ensures top <==> heap != [] && forall i :: 0 <= i < |heap| ==> Raw(heap[i]) < Raw(user)
  {
    match MinByScore(heap)
    case Some(highest) => Gt(highest, user)
    case None => false
  }

  /** On an empty heap nobody is top. */
  lemma EmptyHeapHasNoTop(user: User)
    ensures !UserIsTop([], user)
  {
  }

  /** The check is strict: a candidate that only ties the best score is not top. */
  lemma TieIsNotTop(heap: seq<User>, user: User, k: nat)
    requires k < |heap| && Raw(heap[k]) == Raw(user)
    ensures !UserIsTop(heap, user)
  {
  }

  /** Once `user` has been pushed into the heap, in whatever position the heap
      puts it, `user` is no longer top. */
  lemma PushedUserIsNotTop(heap: seq<User>, pushed: seq<User>, user: User)
    requires multiset(pushed) == multiset(heap) + multiset{user}
    ensures !UserIsTop(pushed, user)
  {
    assert user in multiset(pushed);
    var k :| 0 <= k < |pushed| && pushed[k] == user;
    TieIsNotTop(pushed, user, k);
  }

  /** The answer does not depend on the heap's internal layout: any two
      iteration orders of the same entries give the same answer. */
  lemma UserIsTopIgnoresOrder(a: seq<User>, b: seq<User>, user: User)
    requires multiset(a) == multiset(b)
    ensures UserIsTop(a, user) == UserIsTop(b, user)
  {
    forall i | 0 <= i < |a|
      ensures exists j :: 0 <= j < |b| && b[j] == a[i]
    {
      assert a[i] in multiset(b);
    }
    forall j | 0 <= j < |b|
      ensures exists i :: 0 <= i < |a| && a[i] == b[j]
    {
      assert b[j] in multiset(a);
    }
    assert a == [] <==> b == [] by {
      assert |a| == |multiset(a)| && |b| == |multiset(b)|;
    }
  }

  /** The scenario of the unit test: with scores 10 and 20 in the heap, 10 and
      20 are not top and 30 is; after 30 is pushed, 30 is not top either. */
  lemma UserIsTopScenario(heap: seq<User>, user1: User, user2: User, user3: User)
    requires Raw(user1) == 10 && Raw(user2) == 20 && Raw(user3) == 30
    requires multiset(heap) == multiset{user1, user2}
    ensures !UserIsTop(heap, user1) && !UserIsTop(heap, user2) && UserIsTop(heap, user3)
    ensures !UserIsTop(heap + [user3], user3)
  {
    UserIsTopIgnoresOrder(heap, [user1, user2], user1);
    UserIsTopIgnoresOrder(heap, [user1, user2], user2);
    UserIsTopIgnoresOrder(heap, [user1, user2], user3);
    PushedUserIsNotTop(heap, heap + [user3], user3);
  }

  /** The response `send_coins` returns for a given balance: nothing at all
      when the balance is zero, otherwise one transfer of the whole balance
      followed by the attributes `action`, `sender` and `amount`. */
  function SendCoinsResponse(user: User, balance: nat, denom: string): (r: Response)
    ensures balance == 0 <==> r == EmptyResponse
    ensures |r.messages| == if balance == 0 then 0 else 1
    ensures forall i :: 0 <= i < |r.messages| ==>
      r.messages[i].toAddress == user.address && r.messages[i].amount == [Coin(balance, denom)]
    ensures SentTo(r.messages, user.address, denom) == balance
    ensures SentInAll(r.messages, denom) == balance
    ensures balance > 0 ==>
      && |r.attributes| == 3
      && AttributeValue(r.attributes, "action") == Some("send_coins")
      && AttributeValue(r.attributes, "sender") == Some(user.address)
      && AttributeValue(r.attributes, "amount") == Some(NatToString(balance))
    ensures balance > 0 ==>
      r.attributes == [Attribute("action", "send_coins"), Attribute("sender", user.address),
                       Attribute("amount", NatToString(balance))]
  {
    if balance == 0 then EmptyResponse
    else
      var msg := Send(user.address, Coins(balance, denom));
      var res := AddMessage(EmptyResponse, msg);
      var res := AddAttribute(res, "action", "send_coins");
      var res := AddAttribute(res, "sender", user.address);
      var res := AddAttribute(res, "amount", NatToString(balance));
      assert res.messages == [msg] && res.messages[1..] == [] && msg.amount[1..] == [];
      assert "amount"[1] != "action"[1] && "amount"[0] != "sender"[0];
      assert res.attributes[1..][1..][1..] == [];
      assert CoinTotal(msg.amount, denom) == balance;
      assert SentTo(res.messages, user.address, denom) == balance;
      assert AttributeValue(res.attributes[1..][1..], "amount") == Some(NatToString(balance));
      assert AttributeValue(res.attributes[1..], "amount") == Some(NatToString(balance));
      res
  }

  /** The `amount` attribute of a payout reads back as exactly the amount sent. */
  lemma AmountAttributeMatchesTransfer(user: User, balance: nat, denom: string)
    requires balance > 0
    ensures var r := SendCoinsResponse(user, balance, denom);
      && AttributeValue(r.attributes, "amount").Some?
      && DecimalValue(AttributeValue(r.attributes, "amount").value) == SentInAll(r.messages, denom)
  {
    NatToStringRoundTrip(balance);
  }

  /** A zero balance yields the same empty response whoever the winner is and
      whatever the denomination: repeated calls cannot differ. */
  lemma ZeroBalanceResponseIsEmpty(user: User, user': User, denom: string, denom': string)
    ensures SendCoinsResponse(user, 0, denom) == SendCoinsResponse(user', 0, denom') == EmptyResponse
  {
  }

  /** The persisted payout bookkeeping that `send_coins` reads and updates:
      the denomination of the arcade and the cumulative `TOTAL_PRICE_DISTRIBUTED`,
      a `u128`. */
  class Arcade {
    var denom: string
    var totalDistributed: nat

    ghost predicate Valid()
      reads this
    {
      totalDistributed < U128_LIMIT
    }

    /** Storage holding the two items with the given values. */
    constructor (denom: string, totalDistributed: nat)
      requires totalDistributed < U128_LIMIT
      ensures Valid()
      ensures this.denom == denom && this.totalDistributed == totalDistributed
    {
      this.denom := denom;
      this.totalDistributed := totalDistributed;
    }

    /** `send_coins`: pay the contract's whole `balance` to `user`. A zero
        balance changes nothing and returns an empty response. Otherwise the
        balance is added to the total distributed, and exactly that amount
        leaves in the response, all of it to `user.address` in `denom`. */
    method SendCoins(user: User, balance: nat) returns (res: Response)
      requires Valid()
      requires totalDistributed + balance < U128_LIMIT
      modifies this`totalDistributed
      ensures Valid()
      ensures totalDistributed == old(totalDistributed) + balance
      ensures res == SendCoinsResponse(user, balance, denom)
      ensures totalDistributed - old(totalDistributed) == SentInAll(res.messages, denom)
    {
      if balance == 0 {
        return EmptyResponse;
      }
      var distributed := totalDistributed;
      var total := distributed + balance;
      totalDistributed := total;

      var msg := Send(user.address, Coins(balance, denom));
      res := AddMessage(EmptyResponse, msg);
      res := AddAttribute(res, "action", "send_coins");
      res := AddAttribute(res, "sender", user.address);
      res := AddAttribute(res, "amount", NatToString(balance));
    }
  }
}
