/**
 * `forecast_route` in main.py: serves the scraped forecast for a district and
 * location through a Redis cache, optionally filtered by date.
 *
 * The Redis store is a map from key to the stored list and its expiry in
 * seconds; whether Redis answers at all is a parameter. The scraper is
 * `Coleta.BuscarPrevisao` over an abstract page outcome.
 */
module Forecast {
  import opened Wrappers
  import opened Text
  import opened Dates
  import opened Coleta

  /** What `redis_client.set(chave, json.dumps(previsao), ex=86400)` keeps under a key. */
  datatype Stored = Stored(entries: seq<Entry>, ttl: int)

  /** Whether the Redis server answers; when it does not, every call raises with the given text. */
  datatype StoreLink = Reachable | Unreachable(message: string)

  /** The route's answer: the 200 payload, or a JSONResponse holding only `erro`. */
  datatype Response =
    | Success(distrito: string, location: string, dataFiltrada: Option<string>, previsao: seq<Entry>)
    | ErrorReply(status: int, erro: string)

  const CacheTtl := 86400
  const BadDateMessage := "Formato de data inválido. Use YYYY-MM-DD."
  const FetchErrorPrefix := "Erro ao buscar previsão: "

  /** `f"{distrito}:{location}"`. */
  function CacheKey(distrito: string, location: string): (k: string)
    ensures distrito <= k && |k| == |distrito| + 1 + |location|
    ensures k[|distrito|] == ':' && k[|distrito| + 1..] == location
  {
    distrito + ":" + location
  }

  /** Keys of districts without ':' determine the district and the location. */
  lemma CacheKeyInjective(d1: string, l1: string, d2: string, l2: string)
    requires ':' !in d1 && ':' !in d2
    requires CacheKey(d1, l1) == CacheKey(d2, l2)
    ensures d1 == d2 && l1 == l2
  {
    SplitAtFirst(d1, ':', l1);
    SplitAtFirst(d2, ':', l2);
    assert CacheKey(d1, l1) == d1 + [':'] + l1;
    assert CacheKey(d2, l2) == d2 + [':'] + l2;
  }

  /** With a ':' in the district two different pairs share one cache entry. */
  lemma CacheKeyCollision()
    ensures CacheKey("a:b", "c") == CacheKey("a", "b:c")
  {
  }

  /** Python's truthiness of the `data` query parameter: present and non-empty. */
  predicate Present(data: Option<string>) {
    data.Some? && data.value != ""
  }

  /** `p.get("data") == data`: only day records carry a `data` key. */
  predicate Matches(e: Entry, date: string) {
    e.Day? && e.data == Some(date)
  }

  /** `a` is `b` with some elements left out, the rest in order. */
  predicate IsSubsequence<T(==)>(a: seq<T>, b: seq<T>) {
    a == [] || (b != [] && ((a[0] == b[0] && IsSubsequence(a[1..], b[1..])) || IsSubsequence(a, b[1..])))
  }

  /** `[p for p in previsao if p.get("data") == data]`. */
  function FilterByDate(entries: seq<Entry>, date: string): (r: seq<Entry>)
    ensures forall e :: e in r ==> Matches(e, date)
    ensures forall e :: Matches(e, date) ==> multiset(r)[e] == multiset(entries)[e]
    ensures IsSubsequence(r, entries)
  {
    if entries == [] then []
    else
      var rest := FilterByDate(entries[1..], date);
      assert entries == [entries[0]] + entries[1..];
      if Matches(entries[0], date) then [entries[0]] + rest else rest
  }

  /**
   * The end of `forecast_route` in main.py: validate and apply the date filter, then build the payload.
   * An invalid date gives 400; an absent or empty one leaves the list whole.
   */
  function Respond(distrito: string, location: string, data: Option<string>, previsao: seq<Entry>): (r: Response)
    ensures r.ErrorReply? <==> Present(data) && ParseYmd(data.value).None?
    ensures r.ErrorReply? ==> r == ErrorReply(400, BadDateMessage)
    ensures r.Success? ==> r.distrito == distrito && r.location == location
    ensures r.Success? ==> r.dataFiltrada == (if Present(data) then data else None)
    ensures !Present(data) ==> r.Success? && r.previsao == previsao
    ensures r.Success? && Present(data) ==> r.previsao == FilterByDate(previsao, data.value)
  {
    if Present(data) then
      if ParseYmd(data.value).None? then ErrorReply(400, BadDateMessage)
      else Success(distrito, location, data, FilterByDate(previsao, data.value))
    else Success(distrito, location, None, previsao)
  }

  /** The two `except` clauses of `forecast_route` in main.py: an HTTPException keeps its status and detail; anything else is a 500. */
  function FailureReply(out: FetchOutcome): (r: Response)
    requires !out.Forecast?
    ensures r.ErrorReply?
    ensures out.HttpError? ==> r.status == out.status && r.erro == out.detail
    ensures out.Crash? ==> (r.status == 500 && FetchErrorPrefix <= r.erro
      && r.erro[|FetchErrorPrefix|..] == out.message)
  {
    match out
    case HttpError(status, detail) => ErrorReply(status, detail)
    case Crash(m) => ErrorReply(500, FetchErrorPrefix + m)
  }

  /** The answer of one request, the store afterwards, and whether the scraper ran. */
  datatype Served = Served(response: Response, cache: map<string, Stored>, fetched: bool)

  /** `forecast_route` as a function of the store it starts from: the reference definition. */
  function Serve(cache: map<string, Stored>, distrito: string, location: string, data: Option<string>,
                 useCache: bool, page: PageOutcome, link: StoreLink): (r: Served)
    ensures r.fetched <==> !(useCache && (link.Unreachable? || CacheKey(distrito, location) in cache))
    ensures r.cache != cache ==> (r.fetched && link.Reachable? && Scrape(distrito, location, page).Forecast?
      && r.cache == cache[CacheKey(distrito, location) := Stored(Scrape(distrito, location, page).days, CacheTtl)])
    ensures r.response.Success? ==> r.response.distrito == distrito && r.response.location == location
    ensures r.fetched && link.Reachable? && Scrape(distrito, location, page).Forecast? ==>
      r.response == Respond(distrito, location, data, Scrape(distrito, location, page).days)
    ensures r.fetched && !Scrape(distrito, location, page).Forecast? ==>
      r.response == FailureReply(Scrape(distrito, location, page))
  {
    var key := CacheKey(distrito, location);
    if useCache && link.Unreachable? then
      Served(ErrorReply(500, FetchErrorPrefix + link.message), cache, false)
    else if useCache && key in cache then
      Served(Respond(distrito, location, data, cache[key].entries), cache, false)
    else
      var out := Scrape(distrito, location, page);
      if !out.Forecast? then Served(FailureReply(out), cache, true)
      else if link.Unreachable? then Served(ErrorReply(500, FetchErrorPrefix + link.message), cache, true)
      else Served(Respond(distrito, location, data, out.days), cache[key := Stored(out.days, CacheTtl)], true)
  }

  /** With `use_cache` false the scraper runs exactly once and what is stored plays no part. */
  lemma BypassIgnoresStore(c1: map<string, Stored>, c2: map<string, Stored>, distrito: string, location: string,
                           data: Option<string>, page: PageOutcome, link: StoreLink)
    ensures Serve(c1, distrito, location, data, false, page, link).fetched
    ensures Serve(c1, distrito, location, data, false, page, link).response
         == Serve(c2, distrito, location, data, false, page, link).response
  {
  }

  /** A stored value is served as is: no scrape and no write. */
  lemma HitSkipsScraper(cache: map<string, Stored>, distrito: string, location: string,
                        data: Option<string>, page: PageOutcome)
    requires CacheKey(distrito, location) in cache
    ensures var s := Serve(cache, distrito, location, data, true, page, Reachable);
      !s.fetched && s.cache == cache
      && s.response == Respond(distrito, location, data, cache[CacheKey(distrito, location)].entries)
  {
  }

  /**
   * Whenever no stored value was used, a successful scrape stores the full
   * unfiltered list under the key with expiry 86400, whatever the date filter;
   * with `use_cache` false it overwrites what was there.
   */
  lemma WriteBackUnfiltered(cache: map<string, Stored>, distrito: string, location: string,
                            data: Option<string>, useCache: bool, page: PageOutcome)
    requires !useCache || CacheKey(distrito, location) !in cache
    requires Scrape(distrito, location, page).Forecast?
    ensures var s := Serve(cache, distrito, location, data, useCache, page, Reachable);
      && s.fetched && s.cache == cache[CacheKey(distrito, location) := Stored(Scrape(distrito, location, page).days, 86400)]
      && s.response == Respond(distrito, location, data, Scrape(distrito, location, page).days)
  {
  }

  /** A failing scrape stores nothing and its failure becomes the reply. */
  lemma FailedScrapeLeavesStore(cache: map<string, Stored>, distrito: string, location: string,
                                data: Option<string>, useCache: bool, page: PageOutcome, link: StoreLink)
    requires !Scrape(distrito, location, page).Forecast?
    requires !useCache || (link.Reachable? && CacheKey(distrito, location) !in cache)
    ensures var s := Serve(cache, distrito, location, data, useCache, page, link);
      s.fetched && s.cache == cache && s.response == FailureReply(Scrape(distrito, location, page))
  {
  }

  /** The status codes of the failure paths. */
  lemma FailureStatuses(cache: map<string, Stored>, distrito: string, location: string,
                        data: Option<string>, useCache: bool, link: StoreLink)
    requires !useCache || (link.Reachable? && CacheKey(distrito, location) !in cache)
    ensures Serve(cache, distrito, location, data, useCache, SelectionTimeout, link).response
         == ErrorReply(404, NotFoundDetail(distrito, location))
    ensures Serve(cache, distrito, location, data, useCache, LoadTimeout, link).response
         == ErrorReply(504, TimeoutDetail)
    ensures forall m :: (Serve(cache, distrito, location, data, useCache, LoadFailure(m), link).response
         == ErrorReply(500, FetchErrorPrefix + m))
  {
  }

  /** An invalid date is reported only after the scrape and the write-back have happened. */
  lemma BadDateAfterWriteBack(cache: map<string, Stored>, distrito: string, location: string,
                              date: string, useCache: bool, page: PageOutcome)
    requires date != "" && ParseYmd(date).None?
    requires !useCache || CacheKey(distrito, location) !in cache
    requires Scrape(distrito, location, page).Forecast?
    ensures var s := Serve(cache, distrito, location, Some(date), useCache, page, Reachable);
      s.fetched && s.response == ErrorReply(400, BadDateMessage)
      && CacheKey(distrito, location) in s.cache
  {
  }

  /** When Redis does not answer, reading or writing raises and the generic handler answers 500. */
  lemma StoreOutageIsServerError(cache: map<string, Stored>, distrito: string, location: string,
                                 data: Option<string>, useCache: bool, page: PageOutcome, message: string)
    requires useCache || Scrape(distrito, location, page).Forecast?
    ensures var s := Serve(cache, distrito, location, data, useCache, page, Unreachable(message));
      s.response == ErrorReply(500, FetchErrorPrefix + message) && s.cache == cache
      && s.fetched == !useCache
  {
  }

  /**
   * Two identical requests with `use_cache` true: once the first has stored a
   * list, the second is served from it without scraping, with the same reply.
   */
  lemma SecondRequestServedFromStore(cache: map<string, Stored>, distrito: string, location: string,
                                     data: Option<string>, page1: PageOutcome, page2: PageOutcome)
    requires CacheKey(distrito, location) in cache || Scrape(distrito, location, page1).Forecast?
    ensures var first := Serve(cache, distrito, location, data, true, page1, Reachable);
      var second := Serve(first.cache, distrito, location, data, true, page2, Reachable);
      !second.fetched && second.cache == first.cache && second.response == first.response
  {
  }

  /**
   * strptime accepts a date without zero padding, but the scraper writes only
   * padded dates, so such a filter passes validation and matches nothing.
   */
  lemma UnpaddedFilterMatchesNothing(distrito: string, location: string, page: PageOutcome, date: string)
    requires Scrape(distrito, location, page).Forecast?
    requires ParseYmd(date).Some? && !IsCanonicalText(date)
    ensures FilterByDate(Scrape(distrito, location, page).days, date) == []
  {
    var days := Scrape(distrito, location, page).days;
    DatedEntriesCanonical(distrito, location, page);
    assert forall e :: e in days ==> !Matches(e, date);
    NoMatchFiltersToEmpty(days, date);
  }

  lemma {:induction false} NoMatchFiltersToEmpty(entries: seq<Entry>, date: string)
    requires forall e :: e in entries ==> !Matches(e, date)
    ensures FilterByDate(entries, date) == []
  {
    if entries != [] {
      assert entries[0] in entries;
      NoMatchFiltersToEmpty(entries[1..], date);
    }
  }

  /** A valid filter keeps exactly the matching entries: one match among others gives that one. */
  lemma FilterKeepsTheMatch(match1: Entry, others: seq<Entry>, date: string)
    requires Matches(match1, date)
    requires forall e :: e in others ==> !Matches(e, date)
    ensures FilterByDate([match1] + others, date) == [match1]
  {
    assert ([match1] + others)[1..] == others;
  }

  /** The forecast service: the Redis store it talks to and a count of scraper runs. */
  class ForecastService {
    var cache: map<string, Stored>
    ghost var fetches: nat

    constructor (initial: map<string, Stored>)
      ensures cache == initial && fetches == 0
    {
      cache := initial;
      fetches := 0;
    }

    /** `forecast_route(distrito, location, data, use_cache)`. */
    method ForecastRoute(distrito: string, location: string, data: Option<string>, useCache: bool,
                         page: PageOutcome, link: StoreLink) returns (resp: Response)
      modifies this
      ensures var s := Serve(old(cache), distrito, location, data, useCache, page, link);
        resp == s.response && cache == s.cache && fetches == old(fetches) + (if s.fetched then 1 else 0)
      ensures !useCache ==> fetches == old(fetches) + 1
      ensures useCache && link.Reachable? && CacheKey(distrito, location) in old(cache) ==>
        fetches == old(fetches) && cache == old(cache)
    {
      var chave := CacheKey(distrito, location);
      var cached: Option<seq<Entry>> := None;
      if useCache {
        if link.Unreachable? {
          return ErrorReply(500, FetchErrorPrefix + link.message);
        }
        if chave in cache {
          cached := Some(cache[chave].entries);
        }
      }
      var previsao: seq<Entry>;
      if cached.Some? {
        previsao := cached.value;
      } else {
        fetches := fetches + 1;
        var out := BuscarPrevisao(distrito, location, page);
        if !out.Forecast? {
          return FailureReply(out);
        }
        previsao := out.days;
        if link.Unreachable? {
          return ErrorReply(500, FetchErrorPrefix + link.message);
        }
        cache := cache[chave := Stored(previsao, CacheTtl)];
      }
      resp := Respond(distrito, location, data, previsao);
    }
  }
}
