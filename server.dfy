/** The URL handlers of server.js as a state machine: the store's collection,
    the cache slot `'urls'` and, for the proofs, a record of every call made
    to either collaborator. Requests are handled one after another. */
module Server {
  import opened Wrappers
  import opened UrlRecords
  import opened Http
  import opened ListingCache
  import opened Auth

  /** A call the handlers make to the store or the cache. */
  datatype Effect =
    | CacheGet(key: string)                     // redisClient.get(key)
    | CacheSet(key: string, entry: CacheEntry)  // redisClient.set(key, ..., { EX })
    | StoreFind                                 // ShortUrl.find()
    | StoreFindOne(code: string)                // ShortUrl.findOne({ short: code })
    | StoreSave(record: Record)                 // shortUrl.save()
    | StoreCreate(full: string)                 // ShortUrl.create({ full })

  /** Which collaborator calls of the request at hand reject. The store's and
      the cache's own reasons (network, validation, a full disk) are not
      modelled; only the fact that the awaited call throws. */
  datatype Faults = Faults(cacheGet: bool, cacheSet: bool, find: bool, findOne: bool, create: bool)

  const ServerErrorMessage: string := "Internal server error"
  const CreateErrorMessage: string := "Failed to create short URL"

  class App {
    /** The store's collection, in the order `ShortUrl.find()` lists it. */
    var records: seq<Record>
    /** The cache slot under `'urls'`. */
    var cache: Option<CacheEntry>
    /** Every store and cache call made so far, oldest first. */
    ghost var log: seq<Effect>
    /** Every content the store has had. */
    ghost var history: set<seq<Record>>

    /** Whatever the cache holds is a listing the store once had: possibly
        stale, never invented. */
    ghost predicate Valid()
      reads this
    {
      records in history &&
      (cache.Some? ==> cache.value.snapshot in history)
    }

    constructor(initial: seq<Record>)
      ensures Valid() && records == initial && cache == None && log == []
      ensures history == {initial}
    {
      records := initial;
      cache := None;
      log := [];
      history := {initial};
    }

    /** `GET /` (server.js:36-54), cache-aside: a live entry under `'urls'`
        is served without asking the store; otherwise the store's listing is
        written back with a one-hour expiry and served. Any rejected call
        answers 500; there is no fall-back from a cache failure to the store. */
    method Home(now: int, faults: Faults) returns (resp: Response)
      requires Valid()
      modifies this
      ensures Valid() && records == old(records) && history == old(history)
      ensures faults.cacheGet ==>
        resp == JsonError(500, "error", ServerErrorMessage) && cache == old(cache) &&
        log == old(log) + [CacheGet(CacheKey)]
      ensures !faults.cacheGet && Lookup(old(cache), now).Some? ==>
        resp == RenderHome(Lookup(old(cache), now).value) && cache == old(cache) &&
        log == old(log) + [CacheGet(CacheKey)]
      ensures !faults.cacheGet && Lookup(old(cache), now).None? && faults.find ==>
        resp == JsonError(500, "error", ServerErrorMessage) && cache == old(cache) &&
        log == old(log) + [CacheGet(CacheKey), StoreFind]
      ensures !faults.cacheGet && Lookup(old(cache), now).None? && !faults.find ==>
        log == old(log) + [CacheGet(CacheKey), StoreFind, CacheSet(CacheKey, Fill(records, now))] &&
        if faults.cacheSet then
          resp == JsonError(500, "error", ServerErrorMessage) && cache == old(cache)
        else
          resp == RenderHome(records) && cache == Some(Fill(records, now))
    {
      log := log + [CacheGet(CacheKey)];
      if faults.cacheGet {
        return JsonError(500, "error", ServerErrorMessage);
      }
      var cached := Lookup(cache, now);
      if cached.Some? {
        return RenderHome(cached.value);
      }
      log := log + [StoreFind];
      if faults.find {
        return JsonError(500, "error", ServerErrorMessage);
      }
      var urls := records;
      var entry := Fill(urls, now);
      log := log + [CacheSet(CacheKey, entry)];
      if faults.cacheSet {
        return JsonError(500, "error", ServerErrorMessage);
      }
      cache := Some(entry);
      resp := RenderHome(urls);
    }

    /** The body of `POST /shortUrls` (server.js:91-97): the store creates one
        record for `full` under the code `code` its generator assigns, with no
        clicks, and the caller is sent back to the listing. The cache is not
        touched, so a live listing entry goes on omitting the new record. A
        rejected create answers 500 and leaves the store as it was. */
    method CreateShortUrl(full: string, code: string, faults: Faults) returns (resp: Response)
      requires Valid()
      modifies this
      ensures Valid() && cache == old(cache) && ClicksGrow(old(records), records)
      ensures history == old(history) + {records}
      ensures log == old(log) + [StoreCreate(full)]
      ensures faults.create ==>
        resp == JsonError(500, "error", CreateErrorMessage) && records == old(records)
      ensures !faults.create ==>
        resp == Redirect("/") && records == old(records) + [Record(full, code, 0)]
    {
      log := log + [StoreCreate(full)];
      if faults.create {
        history := history + {records};
        return JsonError(500, "error", CreateErrorMessage);
      }
      records := records + [Record(full, code, 0)];
      history := history + {records};
      resp := Redirect("/");
    }

    /** `POST /shortUrls` with its middleware (server.js:87): the creation
        runs only when `authenticate` calls `next`; a refused request answers
        401 with no store or cache call at all. */
    method PostShortUrls(req: Request, verify: string -> Option<Claims>, full: string,
                         code: string, faults: Faults) returns (resp: Response)
      requires Valid()
      modifies this, req
      ensures Valid() && cache == old(cache) && history == old(history) + {records}
      ensures Decide(req.authorization, verify).Refuse? ==>
        resp == Decide(req.authorization, verify).response && resp.Status() == Some(401) &&
        records == old(records) && log == old(log) && req.user == old(req.user)
      ensures Decide(req.authorization, verify).Admit? ==>
        req.user == Decide(req.authorization, verify).user &&
        log == old(log) + [StoreCreate(full)] &&
        if faults.create then
          resp == JsonError(500, "error", CreateErrorMessage) && records == old(records)
        else
          resp == Redirect("/") && records == old(records) + [Record(full, code, 0)]
    {
      var callsNext, refusal := Authenticate(req, verify);
      if !callsNext {
        history := history + {records};
        RefusalsDifferOnlyInMessage(req.authorization, verify);
        return refusal.value;
      }
      resp := CreateShortUrl(full, code, faults);
    }

    /** `GET /api/shortUrls` (server.js:101-105): the store's listing, read
        directly; the cache is neither read nor written. The handler has no
        `catch`, so a rejected query leaves the request unanswered. */
    method ApiShortUrls(faults: Faults) returns (resp: Response)
      requires Valid()
      modifies this`log
      ensures Valid()
      ensures log == old(log) + [StoreFind]
      ensures resp == if faults.find then Unhandled else JsonList(records)
    {
      log := log + [StoreFind];
      if faults.find {
        return Unhandled;
      }
      resp := JsonList(records);
    }

    /** `GET /:shortUrl` (server.js:108-116): an unknown code answers 404 and
        changes nothing; a known one gets one more click on its first matching
        record, saved, and redirects to that record's `full`. The save is
        taken to complete. The cache is never consulted. */
    method Resolve(code: string, faults: Faults) returns (resp: Response)
      requires Valid()
      modifies this
      ensures Valid() && cache == old(cache) && ClicksGrow(old(records), records)
      ensures history == old(history) + {records}
      ensures faults.findOne ==>
        resp == Unhandled && records == old(records) && log == old(log) + [StoreFindOne(code)]
      ensures !faults.findOne ==> records == Visit(old(records), code)
      ensures !faults.findOne && FindFirst(old(records), code).None? ==>
        resp == StatusOnly(404) && records == old(records) &&
        log == old(log) + [StoreFindOne(code)]
      ensures !faults.findOne && FindFirst(old(records), code).Some? ==>
        var i := FindFirst(old(records), code).value;
        resp == Redirect(old(records)[i].full) &&
        log == old(log) + [StoreFindOne(code), StoreSave(records[i])]
    {
      log := log + [StoreFindOne(code)];
      if faults.findOne {
        history := history + {records};
        return Unhandled;
      }
      var found := FindFirst(records, code);
      if found.None? {
        history := history + {records};
        return StatusOnly(404);
      }
      var i := found.value;
      VisitEffect(records, code);
      records := Clicked(records, i);
      history := history + {records};
      log := log + [StoreSave(records[i])];
      resp := Redirect(records[i].full);
    }
  }

  /** A link is shortened to `abc123` and followed twice: each visit
      redirects and counts one click; an unknown code answers 404 and counts
      nothing. */
  method ShortenAndFollow()
  {
    var app := new App([]);
    var none := Faults(false, false, false, false, false);
    var created := app.CreateShortUrl("https://example.com", "abc123", none);
    assert created == Redirect("/");
    assert app.records == [Record("https://example.com", "abc123", 0)];
    var first := app.Resolve("abc123", none);
    assert first == Redirect("https://example.com") && app.records[0].clicks == 1;
    var second := app.Resolve("abc123", none);
    assert second == Redirect("https://example.com") && app.records[0].clicks == 2;
    var missing := app.Resolve("doesnotexist", none);
    assert missing == StatusOnly(404) && app.records[0].clicks == 2;
  }

  /** The listing written on a miss at time `t` is served again, without a
      store query, for the rest of the hour, even after a record was created
      in between; from `t + 3600` on the store is queried again. */
  method StaleListingWithinTheHour(initial: seq<Record>, t: int)
  {
    var app := new App(initial);
    var none := Faults(false, false, false, false, false);
    var miss := app.Home(t, none);
    assert miss == RenderHome(initial);
    var created := app.CreateShortUrl("https://example.com", "abc123", none);
    var before := app.log;
    var hit := app.Home(t + ExpirySeconds - 1, none);
    assert hit == RenderHome(initial) && app.log == before + [CacheGet(CacheKey)];
    assert app.records == initial + [Record("https://example.com", "abc123", 0)];
    var refreshed := app.Home(t + ExpirySeconds, none);
    assert refreshed == RenderHome(app.records);
  }
}
