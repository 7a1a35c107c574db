/** The host-chain values a contract hands back: coins, bank transfers,
    attributes and the response that collects them, together with the decimal
    rendering `to_string` gives an unsigned amount. Only their shape is
    modelled; executing a transfer is left to the host. */
module CosmWasm {

  import opened Wrappers

  /** One past the largest `u128`. */
  const U128_LIMIT: nat := 0x1_0000_0000_0000_0000_0000_0000_0000_0000

  /** An amount of one denomination. */
  datatype Coin = Coin(amount: nat, denom: string)

  /** `BankMsg::Send`: move `amount` from the contract to `toAddress`. */
  datatype BankMsg = Send(toAddress: string, amount: seq<Coin>)

  /** A key/value pair attached to a response for observability. */
  datatype Attribute = Attribute(key: string, value: string)

  /** `Response`: the messages to execute after the call, and its attributes. */
  datatype Response = Response(messages: seq<BankMsg>, attributes: seq<Attribute>)

  /** `Response::new()`. */
  const EmptyResponse: Response := Response([], [])

  /** `coins(amount, denom)`: a one-element coin list. */
  function Coins(amount: nat, denom: string): seq<Coin> {
    [Coin(amount, denom)]
  }

  /** `Response::add_message`. */
  function AddMessage(r: Response, m: BankMsg): Response {
    r.(messages := r.messages + [m])
  }

  /** `Response::add_attribute`. */
  function AddAttribute(r: Response, key: string, value: string): Response {
    r.(attributes := r.attributes + [Attribute(key, value)])
  }

  /** The value of the first attribute named `key`, if there is one. */
  function AttributeValue(attrs: seq<Attribute>, key: string): Option<string> {
    if attrs == [] then None
    else if attrs[0].key == key then Some(attrs[0].value)
    else AttributeValue(attrs[1..], key)
  }

  /** The sum of the coins in `coins` that are of denomination `denom`. */
  function CoinTotal(coins: seq<Coin>, denom: string): nat {
    if coins == [] then 0
    else (if coins[0].denom == denom then coins[0].amount else 0) + CoinTotal(coins[1..], denom)
  }

  /** How much of `denom` the messages send to `to`. */
  function SentTo(msgs: seq<BankMsg>, to: string, denom: string): nat {
    if msgs == [] then 0
    else (if msgs[0].toAddress == to then CoinTotal(msgs[0].amount, denom) else 0)
         + SentTo(msgs[1..], to, denom)
  }

  /** How much of `denom` the messages send in all, to anyone. */
  function SentInAll(msgs: seq<BankMsg>, denom: string): nat {
    if msgs == [] then 0
    else CoinTotal(msgs[0].amount, denom) + SentInAll(msgs[1..], denom)
  }

  predicate IsDigit(c: char) {
    '0' <= c <= '9'
  }

  function DigitValue(c: char): (d: nat)
    requires IsDigit(c)
    ensures d < 10
  {
    c as int - '0' as int
  }

  function DigitChar(d: nat): (c: char)
    requires d < 10
    ensures IsDigit(c) && DigitValue(c) == d
  {
    "0123456789"[d]
  }

  /** The decimal text of `n`, as `to_string` renders an unsigned integer:
      digits only, most significant first, no leading zero. */
  function NatToString(n: nat): (s: string)
    ensures |s| >= 1
    ensures forall i :: 0 <= i < |s| ==> IsDigit(s[i])
    ensures s[0] == '0' ==> n == 0 && s == "0"
  {
    if n < 10 then [DigitChar(n)] else NatToString(n / 10) + [DigitChar(n % 10)]
  }

  /** The number a string of decimal digits denotes. */
  function DecimalValue(s: string): nat
    requires forall i :: 0 <= i < |s| ==> IsDigit(s[i])
  {
    if s == [] then 0
    else 10 * DecimalValue(s[..|s| - 1]) + DigitValue(s[|s| - 1])
  }

  /** Reading the decimal text of `n` back gives `n`: the rendering loses nothing. */
  lemma {:induction false} NatToStringRoundTrip(n: nat)
    ensures DecimalValue(NatToString(n)) == n
  {
    if n >= 10 {
      var s := NatToString(n);
      assert s[..|s| - 1] == NatToString(n / 10);
      NatToStringRoundTrip(n / 10);
    }
  }

  /** Distinct amounts render as distinct text. */
  lemma NatToStringInjective(m: nat, n: nat)
    requires NatToString(m) == NatToString(n)
    ensures m == n
  {
    NatToStringRoundTrip(m);
    NatToStringRoundTrip(n);
  }
}
