/**
 * The liquidity-mining strategy's configuration helpers: the validator for
 * the `token` parameter, the callback that records the chosen exchange, and
 * the prompt for the order size.
 *
 * The configured `markets` and `token` values, read from the strategy's
 * configuration map in the original, are parameters here.
 */
module LiquidityMiningConfig {
  import opened Wrappers
  import opened StringOps

  /** Separates the market entries of the `markets` parameter ("LTC-USDT,ETH-USDT"). */
  const MarketSeparator: char := ','

  /** Separates the tokens of one market entry ("LTC-USDT"). */
  const PairSeparator: char := '-'

  const InvalidTokenPrefix: string := "Invalid token. "

  const PromptHead: string := "What is the size of each order (in "

  const PromptTail: string := " amount)? >>> "

  /**
   * The tokens of one market entry, every `-`-separated piece kept
   * verbatim: there is at least one, none contains the separator, and an
   * entry without a separator is its own single token.
   */
  function Pieces(market: string): (r: set<string>)
    ensures r != {}
    ensures forall p :: p in r ==> PairSeparator !in p
    ensures PairSeparator !in market ==> r == {market}
  {
    var pieces := Split(market, PairSeparator);
    var r := set p | p in pieces;
    assert pieces[0] in r;
    assert PairSeparator !in market ==> r == {market} by {
      if PairSeparator !in market {
        SplitNoSeparator(market, PairSeparator);
      }
    }
    r
  }

  /**
   * The token set built from market entries, adding the last entry's pieces
   * last: it grows with every entry, and no token contains the separator.
   */
  function TokensOf(markets: seq<string>): (r: set<string>)
    ensures markets != [] ==> r != {}
    ensures forall t :: t in r ==> PairSeparator !in t
    ensures forall k :: 0 <= k < |markets| ==> Pieces(markets[k]) <= r
    decreases |markets|
  {
    if markets == [] then {}
    else
      var init := markets[..|markets| - 1];
      var r := TokensOf(init) + Pieces(markets[|markets| - 1]);
      assert forall k :: 0 <= k < |init| ==> markets[k] == init[k];
      r
  }

  /** The validator's verdict: the upper-cased value is a piece of some market entry. */
  predicate Accepted(value: string, markets: string)
  {
    exists m :: m in Split(markets, MarketSeparator) && Upper(value) in Split(m, PairSeparator)
  }

  /** The fixed part of the rejection message, before the list of tokens. */
  function MessageHead(token: string): string
  {
    InvalidTokenPrefix + token + " is not one of "
  }

  /**
   * The rejection message, for one enumeration order of the token set. It
   * opens with the fixed part naming the token, and a listing of comma-free
   * tokens can be read back from the rest by splitting on commas.
   */
  function InvalidTokenMessage(token: string, listing: seq<string>): (r: string)
    ensures |MessageHead(token)| <= |r| && r[..|MessageHead(token)|] == MessageHead(token)
    ensures |listing| >= 1 && (forall p :: p in listing ==> MarketSeparator !in p) ==>
      Split(r[|MessageHead(token)|..], MarketSeparator) == listing
  {
    var head := MessageHead(token);
    var r := head + Join(listing, MarketSeparator);
    assert r[..|head|] == head;
    assert r[|head|..] == Join(listing, MarketSeparator);
    assert |listing| >= 1 && (forall p :: p in listing ==> MarketSeparator !in p) ==>
      Split(r[|head|..], MarketSeparator) == listing
    by {
      if |listing| >= 1 && (forall p :: p in listing ==> MarketSeparator !in p) {
        SplitJoin(listing, MarketSeparator);
      }
    }
    r
  }

  /** `listing` names every element of `s` exactly once, in some order. */
  ghost predicate Enumerates(listing: seq<string>, s: set<string>)
  {
    (forall x :: x in listing <==> x in s) &&
    (forall i, j :: 0 <= i < j < |listing| ==> listing[i] != listing[j])
  }

  /** A token is in the set exactly when it is a piece of one of the entries. */
  lemma {:induction false} TokensOfMembership(markets: seq<string>, t: string)
    ensures t in TokensOf(markets) <==> exists k :: 0 <= k < |markets| && t in Split(markets[k], PairSeparator)
    decreases |markets|
  {
    if markets != [] {
      var init := markets[..|markets| - 1];
      TokensOfMembership(init, t);
      if t in TokensOf(init) {
        var k :| 0 <= k < |init| && t in Split(init[k], PairSeparator);
        assert markets[k] == init[k];
      }
      if exists k :: 0 <= k < |markets| && t in Split(markets[k], PairSeparator) {
        var k :| 0 <= k < |markets| && t in Split(markets[k], PairSeparator);
        if k < |init| {
          assert init[k] == markets[k];
        }
      }
    }
  }

  /** The token set depends only on which entries occur, not on their order or repetition. */
  lemma {:induction false} TokensDependOnlyOnEntries(ms1: seq<string>, ms2: seq<string>)
    requires forall m :: m in ms1 <==> m in ms2
    ensures TokensOf(ms1) == TokensOf(ms2)
  {
    forall t ensures t in TokensOf(ms1) <==> t in TokensOf(ms2) {
      TokensOfMembership(ms1, t);
      TokensOfMembership(ms2, t);
      if t in TokensOf(ms1) {
        var k :| 0 <= k < |ms1| && t in Split(ms1[k], PairSeparator);
        assert ms1[k] in ms2;
        var k2 :| 0 <= k2 < |ms2| && ms2[k2] == ms1[k];
      }
      if t in TokensOf(ms2) {
        var k :| 0 <= k < |ms2| && t in Split(ms2[k], PairSeparator);
        assert ms2[k] in ms1;
        var k1 :| 0 <= k1 < |ms1| && ms1[k1] == ms2[k];
      }
    }
  }

  /**
   * Lists a set in an arbitrary order, as iterating over a Python set
   * does; the order is chosen freely at each step.
   */
  method ListTokens(tokens: set<string>) returns (listing: seq<string>)
    ensures Enumerates(listing, tokens)
  {
    listing := [];
    var rest := tokens;
    while rest != {}
      invariant rest <= tokens
      invariant forall x :: x in listing <==> x in tokens && x !in rest
      invariant forall i, j :: 0 <= i < j < |listing| ==> listing[i] != listing[j]
      decreases |rest|
    {
      var x :| x in rest;
      listing := listing + [x];
      rest := rest - {x};
    }
  }

  /**
   * `token_validate`: no error exactly when the upper-cased value is a
   * piece of some market entry; otherwise the message names the
   * upper-cased value and lists the token set.
   */
  method TokenValidate(value: string, markets: string) returns (err: Option<string>)
    ensures err.None? <==> Accepted(value, markets)
    ensures err.Some? ==>
      exists listing :: Enumerates(listing, TokensOf(Split(markets, MarketSeparator))) &&
                        err.value == InvalidTokenMessage(Upper(value), listing)
    ensures err.Some? ==>
      |InvalidTokenPrefix + Upper(value)| <= |err.value| &&
      err.value[..|InvalidTokenPrefix + Upper(value)|] == InvalidTokenPrefix + Upper(value)
  {
    var token := Upper(value);
    var entries := Split(markets, MarketSeparator);
    var tokens: set<string> := {};
    for i := 0 to |entries|
      invariant tokens == TokensOf(entries[..i])
    {
      assert entries[..i + 1][..i] == entries[..i];
      tokens := tokens + Pieces(entries[i]);
    }
    assert entries[..|entries|] == entries;
    TokensOfMembership(entries, token);
    if token !in tokens {
      var listing := ListTokens(tokens);
      err := Some(InvalidTokenMessage(token, listing));
      assert MessageHead(token) == (InvalidTokenPrefix + token) + " is not one of ";
      assert err.value[..|InvalidTokenPrefix + token|] == MessageHead(token)[..|InvalidTokenPrefix + token|];
    } else {
      err := None;
      var k :| 0 <= k < |entries| && token in Split(entries[k], PairSeparator);
      assert entries[k] in entries;
    }
  }

  /** An upper-cased value never equals a piece that holds a lower-case letter. */
  lemma {:induction false} LowercasePieceNeverMatches(value: string, piece: string)
    requires HasLowerAscii(piece)
    ensures Upper(value) != piece
  {
  }

  /** Markets written in lower case accept no value at all. */
  lemma {:induction false} LowercaseMarketsRejectEverything(value: string, markets: string)
    requires forall m, p :: m in Split(markets, MarketSeparator) && p in Split(m, PairSeparator) ==> HasLowerAscii(p)
    ensures !Accepted(value, markets)
  {
    if Accepted(value, markets) {
      var m :| m in Split(markets, MarketSeparator) && Upper(value) in Split(m, PairSeparator);
      LowercasePieceNeverMatches(value, Upper(value));
    }
  }

  /** "ltc-usdt" is not matched by "ltc", nor by any other input. */
  lemma {:induction false} LowercaseMarketExample(value: string)
    ensures !Accepted(value, "ltc-usdt")
  {
    SplitNoSeparator("ltc-usdt", MarketSeparator);
    SplitJoin(["ltc", "usdt"], PairSeparator);
    assert Join(["ltc", "usdt"], PairSeparator) == "ltc-usdt";
    assert IsLowerAscii("ltc"[0]) && IsLowerAscii("usdt"[0]);
    LowercaseMarketsRejectEverything(value, "ltc-usdt");
  }

  /** A trailing comma adds the empty token, so the empty input is accepted. */
  lemma {:induction false} TrailingSeparatorAcceptsEmpty(markets: string)
    requires |markets| > 0 && markets[|markets| - 1] == MarketSeparator
    ensures Accepted("", markets)
  {
    SplitTrailingSeparator(markets, MarketSeparator);
    var entries := Split(markets, MarketSeparator);
    assert entries[|entries| - 1] in entries;
    assert Split("", PairSeparator) == [""];
    assert Upper("") == "";
  }

  /**
   * Every piece of every entry counts, a third or later one included: in a
   * market list joined from separator-free entries, each entry joined from
   * separator-free pieces, any value whose upper-cased form is one of the
   * pieces is accepted.
   */
  lemma {:induction false} EveryPieceCounts(value: string, entries: seq<string>, k: nat, pieces: seq<string>, j: nat)
    requires |entries| >= 1 && forall e :: e in entries ==> MarketSeparator !in e
    requires |pieces| >= 1 && forall p :: p in pieces ==> PairSeparator !in p
    requires k < |entries| && entries[k] == Join(pieces, PairSeparator)
    requires j < |pieces| && Upper(value) == pieces[j]
    ensures Accepted(value, Join(entries, MarketSeparator))
  {
    SplitJoin(entries, MarketSeparator);
    SplitJoin(pieces, PairSeparator);
    assert entries[k] in Split(Join(entries, MarketSeparator), MarketSeparator);
    assert pieces[j] in Split(entries[k], PairSeparator);
  }

  /** Recovers the token from an order-size prompt, if the text has the prompt's shape. */
  function TokenOfPrompt(prompt: string): Option<string>
  {
    if |PromptHead| + |PromptTail| <= |prompt| &&
       prompt[..|PromptHead|] == PromptHead &&
       prompt[|prompt| - |PromptTail|..] == PromptTail
    then Some(prompt[|PromptHead|..|prompt| - |PromptTail|])
    else None
  }

  /** `order_size_prompt`: the configured token appears verbatim between the fixed head and tail. */
  function OrderSizePrompt(token: string): (r: string)
    ensures TokenOfPrompt(r) == Some(token)
  {
    var r := PromptHead + token + PromptTail;
    assert r[..|PromptHead|] == PromptHead;
    assert r[|r| - |PromptTail|..] == PromptTail;
    assert r[|PromptHead|..|r| - |PromptTail|] == token;
    r
  }

  /** The exchanges the client must connect to, a list shared with the rest of the program. */
  class RequiredExchanges {
    var names: seq<string>

    constructor ()
      ensures names == []
    {
      names := [];
    }
  }

  /** `exchange_on_validated`: appends the validated exchange name to the shared list. */
  method ExchangeOnValidated(required: RequiredExchanges, value: string)
    modifies required
    ensures required.names == old(required.names) + [value]
  {
    required.names := required.names + [value];
  }
}
