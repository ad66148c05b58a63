// The price arithmetic of src/accounting/cost_estimator.cpp. Every intermediate value is an Int64, so
// verification shows that no step overflows.

module Cost {
  import opened Arithmetic
  import opened Options

  const MAX: int := 0x7FFF_FFFF_FFFF_FFFF
  const MILLION: int := 1_000_000

  newtype Int64 = x: int | -0x8000_0000_0000_0000 <= x <= 0x7FFF_FFFF_FFFF_FFFF

  // The price of `tokens` at `price` micros a million, rounded down, on unbounded integers.
  function Price(tokens: int, price: int): (micros: int)
    ensures micros >= 0
    ensures tokens > 0 && price > 0 ==> micros * MILLION <= tokens * price < (micros + 1) * MILLION
    ensures tokens <= 0 || price <= 0 ==> micros == 0
  {
    if tokens <= 0 || price <= 0 then 0
    else
      assert tokens * price > 0;
      tokens * price / MILLION
  }

  // A value when it fits, and nothing otherwise.
  function Fitted(value: int): (fitted: Option<Int64>)
    requires value >= 0
    ensures fitted.Some? <==> value <= 0x7FFF_FFFF_FFFF_FFFF
    ensures fitted.Some? ==> fitted.value as int == value
  {
    if value <= MAX then Some(value as Int64) else None
  }

  // Whether a product is too large can be told by a division, before multiplying.
  lemma QuotientBound(n: int, a: int, b: int)
    requires n >= 0 && a > 0 && b >= 0
    ensures a * b >= 0 && (b > n / a <==> a * b > n)
  {
    Floor(n, a);
    var q := n / a;
    TimesKeepsOrder(0, b, a);
    if b > q {
      TimesKeepsOrder(q + 1, b, a);
    } else {
      TimesKeepsOrder(b, q, a);
    }
  }

  method CheckedMul(a: Int64, b: Int64) returns (out: Option<Int64>)
    requires a >= 0 && b >= 0
    ensures a as int * b as int >= 0
    ensures out == Fitted(a as int * b as int)
  {
    if a == 0 {
      return Some(0);
    }
    QuotientBound(MAX, a as int, b as int);
    var limit := 0x7FFF_FFFF_FFFF_FFFF / a;
    if b > limit {
      return None;
    }
    return Some(a * b);
  }

  method CheckedAdd(a: Int64, b: Int64) returns (out: Option<Int64>)
    requires a >= 0 && b >= 0
    ensures out == Fitted(a as int + b as int)
  {
    if b > 0x7FFF_FFFF_FFFF_FFFF - a {
      return None;
    }
    return Some(a + b);
  }

  lemma ProductExpands(hi: int, lo: int, pHi: int, pLo: int, price: int)
    requires price == pHi * MILLION + pLo
    ensures (hi * MILLION + lo) * price == (hi * price + lo * pHi) * MILLION + lo * pLo
  {
    assert lo * price == lo * pHi * MILLION + lo * pLo;
  }

  // Both factors are cut at a million; the price is the sum of three products, none of which is larger
  // than the final result, or than a million squared.
  lemma PriceSplits(tokens: int, price: int)
    requires tokens > 0 && price > 0
    ensures
      var hi, lo, pHi, pLo := tokens / MILLION, tokens % MILLION, price / MILLION, price % MILLION;
      && hi * price >= 0 && lo * pHi >= 0
      && 0 <= lo * pLo < MILLION * MILLION
      && Price(tokens, price) == hi * price + lo * pHi + lo * pLo / MILLION
  {
    var hi, lo, pHi, pLo := tokens / MILLION, tokens % MILLION, price / MILLION, price % MILLION;
    ProductBound(lo, pLo);
    TimesKeepsOrder(0, hi, price);
    TimesKeepsOrder(0, lo, pHi);
    ProductExpands(hi, lo, pHi, pLo, price);
    QuotientOfSum(hi * price + lo * pHi, lo * pLo);
  }

  lemma ProductBound(a: int, b: int)
    requires 0 <= a < MILLION && 0 <= b < MILLION
    ensures 0 <= a * b < MILLION * MILLION
  {
    TimesKeepsOrder(0, a, b);
    TimesKeepsOrder(a, MILLION, b);
  }

  lemma QuotientOfSum(whole: int, rest: int)
    requires rest >= 0
    ensures (whole * MILLION + rest) / MILLION == whole + rest / MILLION
  {
  }

  // The exact price when it fits in 64 bits, and nothing otherwise.
  method TryMultiplyTokensByMicrosPrice(tokens: Int64, priceMicros: Int64) returns (micros: Option<Int64>)
    ensures micros == Fitted(Price(tokens as int, priceMicros as int))
  {
    if tokens <= 0 || priceMicros <= 0 {
      return Some(0);
    }
    PriceSplits(tokens as int, priceMicros as int);
    var hi, lo := tokens / 1_000_000, tokens % 1_000_000;
    var pHi, pLo := priceMicros / 1_000_000, priceMicros % 1_000_000;
    var total: Int64 := 0;
    var part := CheckedMul(hi, priceMicros);
    if part.None? {
      return None;
    }
    var sum := CheckedAdd(total, part.value);
    if sum.None? {
      return None;
    }
    total := sum.value;
    part := CheckedMul(lo, pHi);
    if part.None? {
      return None;
    }
    sum := CheckedAdd(total, part.value);
    if sum.None? {
      return None;
    }
    total := sum.value;
    part := CheckedMul(lo, pLo);
    if part.None? {
      return None;
    }
    sum := CheckedAdd(total, part.value / 1_000_000);
    if sum.None? {
      return None;
    }
    return sum;
  }

  // ---- EstimateCost -------------------------------------------------------------------------

  datatype Usage = Usage(input: Int64, cacheRead: Int64, cacheCreation: Int64, output: Int64)
  datatype ModelPrice = ModelPrice(input: Int64, cacheRead: Int64, cacheCreation: Int64, output: Int64)
  datatype Table = Table(models: map<string, ModelPrice>)
  datatype Status = NotPriced | Estimated | Overflow
  datatype Estimate = Estimate(status: Status, micros: Int64)

  // The key of an entry is a provider, or a star for all of them, a slash and the model.
  ghost predicate Names(key: string, provider: string, model: string) {
    && |key| > |model| && key[|key| - |model| - 1] == '/' && key[|key| - |model|..] == model
    && (key[..|key| - |model| - 1] == provider || key[..|key| - |model| - 1] == "*")
  }

  lemma KeysName(key: string, provider: string, model: string)
    ensures Names(key, provider, model) <==> key == provider + "/" + model || key == "*/" + model
  {
    if Names(key, provider, model) {
      var n := |key| - |model| - 1;
      assert key == key[..n] + [key[n]] + key[n + 1..];
    }
    assert (provider + "/" + model)[..|provider|] == provider;
    assert (provider + "/" + model)[|provider| + 1..] == model;
    assert ("*/" + model)[..1] == "*" && ("*/" + model)[2..] == model;
  }

  // The entry for the model at this provider, or else the one for the model at any provider.
  function Find(table: Table, provider: string, model: string): (price: Option<ModelPrice>)
    ensures model == "" ==> price.None?
    ensures price.Some? ==>
              exists key :: key in table.models && table.models[key] == price.value && Names(key, provider, model)
    ensures model != "" && price.None? ==> forall key | key in table.models :: !Names(key, provider, model)
    ensures model != "" && provider + "/" + model in table.models ==>
              price == Some(table.models[provider + "/" + model])
  {
    var exact, wildcard := provider + "/" + model, "*/" + model;
    assert forall key :: Names(key, provider, model) <==> key == exact || key == wildcard by {
      forall key ensures Names(key, provider, model) <==> key == exact || key == wildcard {
        KeysName(key, provider, model);
      }
    }
    if model == "" then None
    else if exact in table.models then Some(table.models[exact])
    else if wildcard in table.models then Some(table.models[wildcard])
    else None
  }

  // The price of the whole usage on unbounded integers. Reasoning tokens are part of the output.
  function Bill(usage: Usage, price: ModelPrice): (micros: int)
    ensures micros >= 0
  {
    Price(usage.input as int, price.input as int) + Price(usage.cacheRead as int, price.cacheRead as int) +
    Price(usage.cacheCreation as int, price.cacheCreation as int) + Price(usage.output as int, price.output as int)
  }

  function Sum(buckets: seq<(Int64, Int64)>, n: nat): (micros: int)
    requires n <= |buckets|
    ensures micros >= 0
  {
    if n == 0 then 0 else Sum(buckets, n - 1) + Price(buckets[n - 1].0 as int, buckets[n - 1].1 as int)
  }

  lemma {:induction false} SumGrows(buckets: seq<(Int64, Int64)>, n: nat, m: nat)
    requires n <= m <= |buckets|
    ensures Sum(buckets, n) <= Sum(buckets, m)
  {
    if n < m {
      SumGrows(buckets, n, m - 1);
    }
  }

  // `inForce` says that no day was given, or that the table was in effect on it.
  method EstimateCost(usage: Usage, table: Option<Table>, inForce: bool, provider: string, model: string)
    returns (cost: Estimate)
    ensures
      var price := if table.Some? && inForce then Find(table.value, provider, model) else None;
      cost ==
        if price.None? then Estimate(NotPriced, 0)
        else if Bill(usage, price.value) > MAX then Estimate(Overflow, 0)
        else Estimate(Estimated, Bill(usage, price.value) as Int64)
  {
    if table.None? || !inForce {
      return Estimate(NotPriced, 0);
    }
    var found := Find(table.value, provider, model);
    if found.None? {
      return Estimate(NotPriced, 0);
    }
    var price := found.value;
    var buckets := [(usage.input, price.input), (usage.cacheRead, price.cacheRead),
                    (usage.cacheCreation, price.cacheCreation), (usage.output, price.output)];
    assert Sum(buckets, 4) == Bill(usage, price) by {
      assert Sum(buckets, 1) == Price(usage.input as int, price.input as int);
      assert Sum(buckets, 2) == Sum(buckets, 1) + Price(usage.cacheRead as int, price.cacheRead as int);
      assert Sum(buckets, 3) == Sum(buckets, 2) + Price(usage.cacheCreation as int, price.cacheCreation as int);
    }
    var micros: Int64 := 0;
    for i := 0 to |buckets|
      invariant micros as int == Sum(buckets, i)
    {
      SumGrows(buckets, i + 1, |buckets|);
      var part := TryMultiplyTokensByMicrosPrice(buckets[i].0, buckets[i].1);
      if part.None? {
        return Estimate(Overflow, 0);
      }
      var sum := CheckedAdd(micros, part.value);
      if sum.None? {
        return Estimate(Overflow, 0);
      }
      micros := sum.value;
    }
    return Estimate(Estimated, micros);
  }
}
