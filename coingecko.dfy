/** pkg/io/coingecko.go, `ReadCurrencyValues`: the symbol -> USD price table.
    Decoding the CSV into coins (gocsv.Unmarshal) is outside the model: its
    outcome is the input. */
module CoinGecko {
  import opened Wrappers
  import opened Errors

  datatype Coin = Coin(id: string, symbol: string, name: string, price: real)

  /** `io.Currency2Values`. */
  type Currency2Values = map<string, real>

  predicate IsLowerAscii(c: char)
  {
    'a' <= c <= 'z'
  }

  function UpperChar(c: char): char
  {
    if IsLowerAscii(c) then (c as int - 32) as char else c
  }

  /** `strings.ToUpper`, on ASCII letters. */
  function ToUpper(s: string): (u: string)
    ensures |u| == |s|
    ensures forall i :: 0 <= i < |s| ==> u[i] == UpperChar(s[i])
  {
    if s == [] then [] else [UpperChar(s[0])] + ToUpper(s[1..])
  }

  /** Upper-casing leaves no lower-case letter and is idempotent. */
  lemma ToUpperNormal(s: string)
    ensures forall i :: 0 <= i < |ToUpper(s)| ==> !IsLowerAscii(ToUpper(s)[i])
    ensures ToUpper(ToUpper(s)) == ToUpper(s)
  {
  }

  /** The table's keys: every coin's upper-cased symbol. */
  function Symbols(coins: seq<Coin>): set<string>
  {
    set i | 0 <= i < |coins| :: ToUpper(coins[i].symbol)
  }

  /** The price of the last coin whose upper-cased symbol is `key`. */
  function LastPrice(coins: seq<Coin>, key: string): real
    requires key in Symbols(coins)
    decreases |coins|
  {
    var last := coins[|coins| - 1];
    if ToUpper(last.symbol) == key then last.price
    else
      assert key in Symbols(coins[..|coins| - 1]) by {
        var i :| 0 <= i < |coins| && ToUpper(coins[i].symbol) == key;
        assert coins[..|coins| - 1][i] == coins[i];
      }
      LastPrice(coins[..|coins| - 1], key)
  }

  /** The table `ReadCurrencyValues` builds from a decoded coin list. */
  function CurrencyTable(coins: seq<Coin>): Currency2Values
  {
    map key | key in Symbols(coins) :: LastPrice(coins, key)
  }

  /** A coin no later coin collides with (after upper-casing) sets the
      price of its symbol: when symbols collide, the last one wins. */
  lemma {:induction false} LastCoinWins(coins: seq<Coin>, i: nat)
    requires i < |coins|
    requires forall j :: i < j < |coins| ==> ToUpper(coins[j].symbol) != ToUpper(coins[i].symbol)
    ensures ToUpper(coins[i].symbol) in Symbols(coins)
    ensures LastPrice(coins, ToUpper(coins[i].symbol)) == coins[i].price
    decreases |coins|
  {
    if i < |coins| - 1 {
      var init := coins[..|coins| - 1];
      assert init[i] == coins[i];
      LastCoinWins(init, i);
    }
  }

  /** `ReadCurrencyValues`: a decode failure is reported as an error with no
      table; otherwise the table maps exactly the upper-cased symbols, each
      to the price of the last coin carrying it. */
  method ReadCurrencyValues(decoded: Result<seq<Coin>, string>) returns (r: Result<Currency2Values, Error>)
    ensures decoded.Err? ==> r == Err(CurrencyCsvInvalid(decoded.error))
    ensures decoded.Ok? ==> r.Ok?
    ensures decoded.Ok? ==> r.value.Keys == Symbols(decoded.value)
    ensures decoded.Ok? ==> forall key :: key in r.value ==> r.value[key] == LastPrice(decoded.value, key)
    ensures decoded.Ok? ==> r == Ok(CurrencyTable(decoded.value))
  {
    if decoded.Err? {
      return Err(CurrencyCsvInvalid(decoded.error));
    }
    var coins := decoded.value;
    var currencyMap: Currency2Values := map[];
    for i := 0 to |coins|
      invariant currencyMap.Keys == Symbols(coins[..i])
      invariant forall key :: key in currencyMap ==> currencyMap[key] == LastPrice(coins[..i], key)
    {
      var coin := coins[i];
      assert coins[..i + 1][..i] == coins[..i];
      assert Symbols(coins[..i + 1]) == Symbols(coins[..i]) + {ToUpper(coin.symbol)} by {
        assert coins[..i + 1][i] == coin;
        forall k | k in Symbols(coins[..i + 1]) ensures k in Symbols(coins[..i]) + {ToUpper(coin.symbol)} {
          var j :| 0 <= j < i + 1 && ToUpper(coins[..i + 1][j].symbol) == k;
          if j < i { assert coins[..i][j] == coins[..i + 1][j]; }
        }
        forall k | k in Symbols(coins[..i]) ensures k in Symbols(coins[..i + 1]) {
          var j :| 0 <= j < i && ToUpper(coins[..i][j].symbol) == k;
          assert coins[..i + 1][j] == coins[..i][j];
        }
      }
      currencyMap := currencyMap[ToUpper(coin.symbol) := coin.price];
    }
    assert coins[..|coins|] == coins;
    assert currencyMap == CurrencyTable(coins);
    return Ok(currencyMap);
  }

  /** A symbol holding a lower-case letter is never a key of the table, so a
      transaction that carries it unnormalised cannot be priced. */
  lemma LowercaseSymbolAbsent(coins: seq<Coin>, symbol: string, i: nat)
    requires i < |symbol| && IsLowerAscii(symbol[i])
    ensures symbol !in Symbols(coins)
  {
    if symbol in Symbols(coins) {
      var j :| 0 <= j < |coins| && ToUpper(coins[j].symbol) == symbol;
      ToUpperNormal(coins[j].symbol);
    }
  }
}
