/**
 * The exchange-rate service: the current rate (CNY per KRW) and the time it
 * was set, the last fetched rate kept in local storage for an hour, and the
 * two conversions, rounded to the fen and to the won.
 */
module Exchange {
  import opened Wrappers
  import opened JsStrings

  /** How long a stored rate stays usable, in milliseconds (one hour). */
  const CacheDuration: int := 60 * 60 * 1000

  const RateNotLoaded: Text := "汇率未加载"
  const RequestFailed: Text := "API 请求失败"
  const MalformedReply: Text := "API 返回数据格式错误"

  /** A stored rate: the rate, when it was stored, and the provider's date. */
  datatype ExchangeRate = ExchangeRate(rate: real, timestamp: int, date: Text)

  /** What the rate provider answered: an HTTP response (its `ok` flag and
    * the `rates.CNY` field if present), or an error thrown on the way. */
  datatype RateReply =
    | Response(ok: bool, cny: Option<real>, date: Text)
    | Thrown(message: Text)

  /** `Math.round`: the nearest integer, halves rounded up. */
  function Round(x: real): (n: int)
    ensures x - 0.5 < n as real <= x + 0.5
  {
    (x + 0.5).Floor
  }

  /** The rounding is the only integer in that window. */
  lemma RoundIsNearest(x: real, n: int)
    requires x - 0.5 < n as real <= x + 0.5
    ensures n == Round(x)
  {
  }

  /** `n` fen in yuan. */
  function Cents(n: int): (r: real)
    ensures IsCents(r) && r * 100.0 == n as real
  {
    n as real / 100.0
  }

  /** A whole number of fen. */
  predicate IsCents(x: real)
  {
    (x * 100.0).Floor as real == x * 100.0
  }

  class ExchangeRateService {
    var currentRate: Option<real>
    /** The time of the last update, in milliseconds. */
    var lastUpdate: Option<int>
    /** The `exchangeRate` entry of local storage. */
    var stored: Option<ExchangeRate>

    /** A new service starts without a rate; local storage may hold one from
      * an earlier session. */
    constructor (stored: Option<ExchangeRate>)
      ensures currentRate == None && lastUpdate == None && this.stored == stored
    {
      currentRate := None;
      lastUpdate := None;
      this.stored := stored;
    }

    /** A rate both conversions accept: present and non-zero. */
    predicate Loaded()
      reads this
    {
      currentRate.Some? && currentRate.value != 0.0
    }

    /** Only non-zero rates are stored, so a rate taken from storage also
      * makes the conversions available. */
    predicate StoresUsableRates()
      reads this
    {
      stored.Some? ==> stored.value.rate != 0.0
    }

    /** `getCachedRate`: the stored rate unless nothing is stored or it is
      * more than an hour old at `now`. */
    function CachedRate(now: int): (r: Option<ExchangeRate>)
      reads this
      ensures r.Some? <==> stored.Some? && now - stored.value.timestamp <= CacheDuration
      ensures r.Some? ==> r == stored
    {
      if stored.None? then None
      else if now - stored.value.timestamp > CacheDuration then None
      else stored
    }

    /** `krwToCny`: KRW times the rate, to the nearest fen. */
    function KrwToCny(krw: real): (r: Result<real, Text>)
      reads this
      ensures r.Failure? <==> !Loaded()
      ensures r.Failure? ==> r.error == RateNotLoaded
      ensures r.Success? ==> IsCents(r.value) && -0.005 < r.value - krw * currentRate.value <= 0.005
    {
      if !Loaded() then Failure(RateNotLoaded)
      else
        Success(Cents(Round(krw * currentRate.value * 100.0)))
    }

    /** The contract of `KrwToCny` pins its result down: it is the only
      * whole number of fen within half a fen of the exact product. */
    lemma KrwToCnyIsNearestCent(krw: real, x: real)
      requires Loaded() && IsCents(x) && -0.005 < x - krw * currentRate.value <= 0.005
      ensures KrwToCny(krw) == Success(x)
    {
      var n := (x * 100.0).Floor;
      var exact := krw * currentRate.value;
      assert exact * 100.0 - 0.5 < n as real <= exact * 100.0 + 0.5;
      RoundIsNearest(exact * 100.0, n);
      assert Round(krw * currentRate.value * 100.0) == n;
      assert Cents(n) == x;
    }

    /** The contract of `CnyToKrw` pins its result down likewise. */
    lemma CnyToKrwIsNearestWon(cny: real, n: int)
      requires Loaded() && -0.5 < n as real - cny / currentRate.value <= 0.5
      ensures CnyToKrw(cny) == Success(n)
    {
      RoundIsNearest(cny / currentRate.value, n);
    }

    /** `cnyToKrw`: CNY divided by the rate, to the nearest won. */
    function CnyToKrw(cny: real): (r: Result<int, Text>)
      reads this
      ensures r.Failure? <==> !Loaded()
      ensures r.Failure? ==> r.error == RateNotLoaded
      ensures r.Success? ==> -0.5 < r.value as real - cny / currentRate.value <= 0.5
    {
      if !Loaded() then Failure(RateNotLoaded) else Success(Round(cny / currentRate.value))
    }

    /** `setRate`: adopts `rate` as of `now`. */
    method SetRate(rate: real, now: int)
      modifies this
      ensures currentRate == Some(rate) && lastUpdate == Some(now) && stored == old(stored)
    {
      currentRate := Some(rate);
      lastUpdate := Some(now);
    }

    /** `fetchRate`: on a usable reply adopts and stores its rate; otherwise
      * falls back to a stored rate at most an hour old, or fails with the
      * reply's error and changes nothing. */
    method FetchRate(reply: RateReply, now: int) returns (r: Result<real, Text>)
      modifies this
      ensures old(StoresUsableRates()) ==> StoresUsableRates() && (r.Success? ==> Loaded())
      ensures reply.Response? && reply.ok && reply.cny.Some? && reply.cny.value != 0.0 ==>
        && r == Success(reply.cny.value)
        && currentRate == Some(reply.cny.value) && lastUpdate == Some(now)
        && stored == Some(ExchangeRate(reply.cny.value, now, reply.date))
      ensures !(reply.Response? && reply.ok && reply.cny.Some? && reply.cny.value != 0.0) ==>
        && stored == old(stored)
        && (old(CachedRate(now)).Some? ==>
              r == Success(old(stored).value.rate)
              && currentRate == Some(old(stored).value.rate) && lastUpdate == Some(old(stored).value.timestamp))
        && (old(CachedRate(now)).None? ==>
              r == Failure(if reply.Thrown? then reply.message else if !reply.ok then RequestFailed else MalformedReply)
              && currentRate == old(currentRate) && lastUpdate == old(lastUpdate))
    {
      var error: Text;
      if reply.Thrown? {
        error := reply.message;
      } else if !reply.ok {
        error := RequestFailed;
      } else if reply.cny.None? || reply.cny.value == 0.0 {
        error := MalformedReply;
      } else {
        currentRate := Some(reply.cny.value);
        lastUpdate := Some(now);
        stored := Some(ExchangeRate(reply.cny.value, now, reply.date));
        return Success(reply.cny.value);
      }
      var cached := CachedRate(now);
      if cached.Some? {
        currentRate := Some(cached.value.rate);
        lastUpdate := Some(cached.value.timestamp);
        return Success(cached.value.rate);
      }
      return Failure(error);
    }
  }
}
