/**
  Retained exports: a durable store and, in front of it, a bounded read cache. The store forgets
  an expired artifact when it is next asked for; the cache forgets whatever it likes.
*/
module ExportCache {
  import opened Wrappers

  type Byte = x: int | 0 <= x < 256

  datatype Owner = Owner(tenant: string, user: string)

  datatype Entry = Entry(owner: Owner, filename: string, content: seq<Byte>, expires: int)

  datatype Content = Content(id: string, filename: string, content: seq<Byte>)

  datatype ExportError = Unavailable

  type Entries = map<string, Entry>

  /** What a fetch should answer, given every artifact ever exported. */
  function Answer(ledger: Entries, owner: Owner, id: string, now: int): Option<Content> {
    if id in ledger && now < ledger[id].expires && ledger[id].owner == owner
    then Some(Content(id, ledger[id].filename, ledger[id].content)) else None
  }

  function ContentFor(owner: Owner, id: string, entry: Entry): Option<Content> {
    if entry.owner == owner then Some(Content(id, entry.filename, entry.content)) else None
  }

  function Live(entries: Entries, now: int): Entries {
    map id | id in entries && now < entries[id].expires :: entries[id]
  }

  /** Everything in `part` is in `whole`, and what it lacks has expired. */
  ghost predicate Prunes(part: Entries, whole: Entries, now: int) {
    && (forall id :: id in part ==> id in whole && part[id] == whole[id])
    && (forall id :: id in whole && id !in part ==> whole[id].expires <= now)
  }

  ghost predicate Within(part: Entries, whole: Entries) {
    forall id :: id in part ==> id in whole && part[id] == whole[id]
  }

  /** Nothing is recorded when the renderer produced nothing. */
  predicate Rendered(content: Option<seq<Byte>>) { content.Some? && content.value != [] }

  function Recorded(entries: Entries, owner: Owner, id: string, filename: string, content: Option<seq<Byte>>,
                    expires: int): Entries {
    if Rendered(content) then entries[id := Entry(owner, filename, content.value, expires)] else entries
  }

  // ---------------------------------------------------------------- bounding the cache

  /** `after` is `before` without some of its oldest entries. */
  ghost predicate DropsOldest(before: Entries, after: Entries) {
    && Within(after, before)
    && forall gone, kept :: gone in before && gone !in after && kept in after ==>
       before[gone].expires <= before[kept].expires
  }

  /** The live entries, less the oldest of them beyond the cap. */
  ghost predicate Bounded(before: Entries, after: Entries, now: int, cap: nat) {
    |after| <= cap && DropsOldest(Live(before, now), after)
  }

  method Oldest(cache: Entries) returns (key: string)
    requires cache != map[]
    ensures key in cache && forall k :: k in cache ==> cache[key].expires <= cache[k].expires
  {
    key :| key in cache;
    var todo := cache.Keys - {key};
    while todo != {}
      invariant key in cache && todo <= cache.Keys
      invariant forall k :: k in cache && k !in todo ==> cache[key].expires <= cache[k].expires
      decreases |todo|
    {
      var k :| k in todo;
      todo := todo - {k};
      if cache[k].expires < cache[key].expires {
        key := k;
      }
    }
  }

  /** Drops the oldest entries beyond the cap, and no more. */
  method Bound(cache: Entries, cap: nat) returns (after: Entries)
    ensures DropsOldest(cache, after) && |after| == if |cache| > cap then cap else |cache|
  {
    after := cache;
    while |after| > cap
      invariant DropsOldest(cache, after)
      invariant |after| == |cache| || cap <= |after| < |cache|
      decreases |after|
    {
      var key := Oldest(after);
      ghost var was := after;
      after := after - {key};
      assert after.Keys == was.Keys - {key} && |after.Keys| == |after| && |was.Keys| == |was|;
    }
  }

  /** A live artifact that was asked for is in the cache afterwards. */
  function Warmed(live: Entries, ledger: Entries, id: string, now: int): Entries {
    if id in ledger && now < ledger[id].expires then live[id := ledger[id]] else live
  }

  // ---------------------------------------------------------------- the service

  class ExportService {
    var store: Entries
    var cache: Entries
    const retention: int
    const cap: nat
    ghost var ledger: Entries    // every artifact ever exported
    ghost var latest: int        // the latest reading of the clock

    constructor (retention: int, cap: nat, now: int)
      ensures Valid() && ledger == map[] && latest == now && this.retention == retention && this.cap == cap &&
              cache == map[]
    {
      this.retention, this.cap := retention, cap;
      store, cache, ledger, latest := map[], map[], map[], now;
    }

    /** The store lacks only what has expired, and the cache repeats the ledger. */
    ghost predicate Valid()
      reads this
    {
      Prunes(store, ledger, latest) && Within(cache, ledger)
    }

    method EvictExpired(now: int)
      modifies this`cache
      ensures cache == Live(old(cache), now)
    {
      var todo := cache.Keys;
      ghost var was := cache;
      while todo != {}
        invariant todo <= was.Keys
        invariant cache == map id | id in was && (id in todo || now < was[id].expires) :: was[id]
        decreases |todo|
      {
        var id :| id in todo;
        todo := todo - {id};
        if cache[id].expires <= now {
          cache := cache - {id};
        }
      }
    }

    method Remember(id: string, entry: Entry, now: int)
      modifies this`cache
      ensures Bounded(old(cache)[id := entry], cache, now, cap)
      ensures Within(cache, old(cache)[id := entry])
    {
      cache := cache[id := entry];
      EvictExpired(now);
      cache := Bound(cache, cap);
    }

    /** `content` is what the renderer produced, if it produced anything. */
    method Export(owner: Owner, id: string, filename: string, content: Option<seq<Byte>>, now: int)
      returns (r: Result<string, ExportError>)
      requires Valid() && id !in ledger && latest <= now
      modifies this
      ensures Valid() && latest == now
      ensures r == if Rendered(content) then Ok(id) else Err(Unavailable)
      ensures ledger == Recorded(old(ledger), owner, id, filename, content, now + retention)
      ensures store == Recorded(old(store), owner, id, filename, content, now + retention)
      ensures if Rendered(content) then Bounded(Recorded(old(cache), owner, id, filename, content, now + retention),
                                                cache, now, cap)
              else cache == old(cache)
    {
      latest := now;
      if !Rendered(content) {
        return Err(Unavailable);
      }
      var entry := Entry(owner, filename, content.value, now + retention);
      store := store[id := entry];
      ledger := ledger[id := entry];
      Remember(id, entry, now);
      return Ok(id);
    }

    /**
      Answers as the whole ledger would: what was evicted, restarted or purged never shows. A miss
      that is answered adds to the cache, and the cap is not applied here.
    */
    method Fetch(owner: Owner, id: string, now: int) returns (r: Option<Content>)
      requires Valid() && latest <= now
      modifies this
      ensures Valid() && latest == now && ledger == old(ledger)
      ensures r == Answer(ledger, owner, id, now)
      ensures cache == Warmed(Live(old(cache), now), ledger, id, now)
    {
      latest := now;
      EvictExpired(now);
      if id in cache {
        return ContentFor(owner, id, cache[id]);
      }
      if id !in store {
        return None;
      }
      var stored := store[id];
      if stored.expires <= now {
        store := store - {id};
        return None;
      }
      cache := cache[id := stored];
      return ContentFor(owner, id, stored);
    }

    /** A restart loses the cache and nothing else. */
    method Restart()
      requires Valid()
      modifies this`cache
      ensures Valid() && cache == map[]
    {
      cache := map[];
    }
  }

  // ---------------------------------------------------------------- any sequence of requests

  datatype Request =
    | DoExport(owner: Owner, id: string, filename: string, content: Option<seq<Byte>>, at: int)
    | DoFetch(owner: Owner, id: string, at: int)
    | DoRestart

  function Posted(ledger: Entries, request: Request, retention: int): Entries {
    if request.DoExport?
    then Recorded(ledger, request.owner, request.id, request.filename, request.content, request.at + retention)
      else ledger
  }

  function Read(clock: int, request: Request): int { if request.DoRestart? then clock else request.at }

  /** Every artifact exported by the given requests. */
  function LedgerAfter(requests: seq<Request>, retention: int): Entries {
    if requests == [] then map[]
    else Posted(LedgerAfter(requests[..|requests| - 1], retention), requests[|requests| - 1], retention)
  }

  function Clock(requests: seq<Request>, start: int): int {
    if requests == [] then start else Read(Clock(requests[..|requests| - 1], start), requests[|requests| - 1])
  }

  /** The clock never runs back and every export gets an unused identifier. */
  ghost predicate WellTimed(requests: seq<Request>, start: int, retention: int) {
    forall i :: 0 <= i < |requests| ==>
      && (!requests[i].DoRestart? ==> Clock(requests[..i], start) <= requests[i].at)
      && (requests[i].DoExport? ==> requests[i].id !in LedgerAfter(requests[..i], retention))
  }

  function Reply(ledger: Entries, request: Request): Option<Content> {
    if request.DoFetch? then Answer(ledger, request.owner, request.id, request.at) else None
  }

  method Handle(service: ExportService, request: Request) returns (answer: Option<Content>)
    requires service.Valid() && (!request.DoRestart? ==> service.latest <= request.at)
    requires request.DoExport? ==> request.id !in service.ledger
    modifies service
    ensures service.Valid() && service.latest == Read(old(service.latest), request)
    ensures service.ledger == Posted(old(service.ledger), request, service.retention)
    ensures answer == Reply(old(service.ledger), request)
  {
    if request.DoExport? {
      var _ := service.Export(request.owner, request.id, request.filename, request.content, request.at);
      return None;
    } else if request.DoFetch? {
      answer := service.Fetch(request.owner, request.id, request.at);
    } else {
      service.Restart();
      return None;
    }
  }

  /** Over any sequence of exports, fetches and restarts, every answer is the ledger's. */
  method ServeAll(requests: seq<Request>, start: int, retention: int, cap: nat) returns (answers: seq<Option<Content>>)
    requires WellTimed(requests, start, retention)
    ensures |answers| == |requests|
    ensures forall i :: 0 <= i < |requests| ==> answers[i] == Reply(LedgerAfter(requests[..i], retention), requests[i])
  {
    var service := new ExportService(retention, cap, start);
    answers := [];
    for i := 0 to |requests|
      invariant fresh(service) && service.Valid() && service.retention == retention
      invariant service.ledger == LedgerAfter(requests[..i], retention) && service.latest == Clock(requests[..i], start)
      invariant |answers| == i && forall j :: 0 <= j < i ==>
                answers[j] == Reply(LedgerAfter(requests[..j], retention), requests[j])
    {
      assert requests[..i + 1][..i] == requests[..i];
      var answer := Handle(service, requests[i]);
      answers := answers + [answer];
    }
  }

  // ---------------------------------------------------------------- what a fetch gives back

  /** The export put something under the identifier. */
  predicate Puts(given: Request, id: string) {
    given.DoExport? && given.id == id && given.content.Some? && |given.content.value| > 0
  }

  /** The fetch asks, as the owner and within the retention period, for what the export put. */
  predicate Delivers(given: Request, fetch: Request, retention: int, c: Content)
    requires fetch.DoFetch?
  {
    && Puts(given, fetch.id)
    && given.owner == fetch.owner && fetch.at < given.at + retention
    && c == Content(given.id, given.filename, given.content.value)
  }

  /** The ledger holds what was put, each time under an unused identifier. */
  lemma {:induction false} LedgerHolds(requests: seq<Request>, n: nat, start: int, retention: int, id: string)
    requires WellTimed(requests, start, retention) && n <= |requests|
    ensures id in LedgerAfter(requests[..n], retention) <==> exists i :: 0 <= i < n && Puts(requests[i], id)
    ensures forall i :: 0 <= i < n && Puts(requests[i], id) ==>
              id in LedgerAfter(requests[..n], retention) &&
              LedgerAfter(requests[..n], retention)[id] ==
              Entry(requests[i].owner, requests[i].filename, requests[i].content.value, requests[i].at + retention)
  {
    if n > 0 {
      LedgerHolds(requests, n - 1, start, retention, id);
      assert requests[..n][..n - 1] == requests[..n - 1];
      assert LedgerAfter(requests[..n], retention) ==
             Posted(LedgerAfter(requests[..n - 1], retention), requests[n - 1], retention);
    }
  }

  /**
    In any well-timed sequence a fetch gives back exactly what an earlier export put under that
    identifier, to its owner alone and until the retention period is over.
  */
  lemma FetchDelivers(requests: seq<Request>, j: nat, start: int, retention: int, c: Content)
    requires WellTimed(requests, start, retention) && j < |requests| && requests[j].DoFetch?
    ensures Reply(LedgerAfter(requests[..j], retention), requests[j]) == Some(c) <==>
            exists i :: 0 <= i < j && Delivers(requests[i], requests[j], retention, c)
  {
    var id := requests[j].id;
    LedgerHolds(requests, j, start, retention, id);
    if id in LedgerAfter(requests[..j], retention) {
      var i :| 0 <= i < j && Puts(requests[i], id);
      assert Reply(LedgerAfter(requests[..j], retention), requests[j]) == Some(c) <==>
             Delivers(requests[i], requests[j], retention, c);
      forall k | 0 <= k < j && Delivers(requests[k], requests[j], retention, c)
        ensures Delivers(requests[i], requests[j], retention, c)
      {
      }
    }
  }

  /**
    The cap holds after an export only. A fetch leaves the cache over its cap if and only if the
    live entries already exceeded it, or filled it and the fetch brought one more back.
  */
  lemma CapAfterFetch(cache: Entries, ledger: Entries, id: string, now: int, cap: nat)
    requires Within(cache, ledger)
    ensures var live := Live(cache, now);
            |Warmed(live, ledger, id, now)| > cap <==>
              |live| > cap || (|live| == cap && id in ledger && now < ledger[id].expires && id !in live)
  {
    var live := Live(cache, now);
    if id in ledger && now < ledger[id].expires {
      var after := live[id := ledger[id]];
      assert after.Keys == live.Keys + {id};
      assert |after| == |after.Keys| && |live| == |live.Keys|;
    }
  }
}
