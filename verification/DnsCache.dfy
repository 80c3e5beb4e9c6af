/**
 * The DNS answer cache (app/dns/cache_controller.go, app/dns/dnscommon.go). Times are in
 * nanoseconds; the clock is a parameter of every operation and is read once in each.
 */
module DnsCaches {
  import opened Bytes

  type IP = bytes

  const SECOND: nat := 1_000_000_000

  /** The TTL an answer for both families starts from, in seconds. */
  const DEFAULT_TTL: nat := 300

  /** An IPRecord; rcode 0 is success. */
  datatype Rec = Rec(ips: seq<IP>, expire: int, rcode: nat)

  datatype Record = Record(a: Option<Rec>, aaaa: Option<Rec>)

  type Cache = map<string, Record>

  datatype Family = V4 | V6

  datatype Families = Families(v4: bool, v6: bool)

  datatype Error = NotFound | Empty | RCode(rcode: nat) | Combined(first: Error, second: Error)

  /** What a lookup returns. It is never asked for no family at all; it would then index an empty list. */
  datatype Answer = Answer(ips: seq<IP>, ttl: nat, err: Option<Error>) | Panic

  const NOT_FOUND := Answer([], 0, Some(NotFound))

  predicate Expired(r: Rec, now: int) {
    r.expire <= now
  }

  function Ttl(r: Rec, now: int): (ttl: nat)
    requires !Expired(r, now)
    ensures 0 < ttl && (ttl - 1) * SECOND <= r.expire - now < ttl * SECOND
  {
    (r.expire - now) / SECOND + 1
  }

  /** getIPs: the answer of one record, and the record afterwards. */
  function Get(r: Option<Rec>, now: int): Answer {
    if r.None? || Expired(r.value, now) then NOT_FOUND
    else if r.value.rcode != 0 then Answer([], Ttl(r.value, now), Some(RCode(r.value.rcode)))
    else if r.value.ips == [] then Answer([], Ttl(r.value, now), Some(Empty))
    else Answer(r.value.ips, Ttl(r.value, now), None)
  }

  function Touched(r: Option<Rec>, now: int): Option<Rec> {
    if r.Some? && !Expired(r.value, now) && Ttl(r.value, now) == 1 then Some(r.value.(expire := now + SECOND)) else r
  }

  // ---------------------------------------------------------------------------------------------
  // findIPsForDomain
  // ---------------------------------------------------------------------------------------------

  /** The answers for both families, the first of which was found, put together. */
  function Merged(x: Answer, y: Answer): Answer
    requires x.Answer? && y.Answer? && (x.ips == [] ==> x.err.Some?) && (y.ips == [] ==> y.err.Some?)
  {
    var ttl := Min(DEFAULT_TTL, Min(x.ttl, y.ttl));
    if y.err == Some(NotFound) then NOT_FOUND
    else if x.ips + y.ips != [] then Answer(x.ips + y.ips, ttl, None)
    else if x.err == y.err then Answer([], ttl, x.err)
    else Answer([], ttl, Some(Combined(x.err.value, y.err.value)))
  }

  function Found(r: Record, f: Families, now: int): Answer {
    if f.v4 && f.v6 then
      if Get(r.a, now).err == Some(NotFound) then NOT_FOUND else Merged(Get(r.a, now), Get(r.aaaa, now))
    else if f.v4 then Get(r.a, now)
    else if f.v6 then Get(r.aaaa, now)
    else Panic
  }

  /** The record after a lookup: what was asked for, and found, may have been given one more second. */
  function FoundNext(r: Record, f: Families, now: int): Record {
    Record(if f.v4 then Touched(r.a, now) else r.a,
           if f.v6 && (f.v4 ==> Get(r.a, now).err != Some(NotFound)) then Touched(r.aaaa, now) else r.aaaa)
  }

  function Lookup(c: Cache, domain: string, f: Families, now: int): Answer {
    if domain in c then Found(c[domain], f, now) else NOT_FOUND
  }

  function LookupNext(c: Cache, domain: string, f: Families, now: int): Cache {
    if domain in c then c[domain := FoundNext(c[domain], f, now)] else c
  }

  /** The families that a query asks for and that are enabled. */
  function Narrowed(wanted: Families, enabled: Families): Families {
    Families(wanted.v4 && enabled.v4, wanted.v6 && enabled.v6)
  }

  /** A query for no family is answered before the cache is looked at, by LookupIP as by QueryIP. */
  function Query(c: Cache, domain: string, wanted: Families, enabled: Families, now: int): Answer {
    var f := Narrowed(wanted, enabled);
    if !f.v4 && !f.v6 then Answer([], 0, Some(Empty)) else Lookup(c, domain, f, now)
  }

  function QueryNext(c: Cache, domain: string, wanted: Families, enabled: Families, now: int): Cache {
    var f := Narrowed(wanted, enabled);
    if !f.v4 && !f.v6 then c else LookupNext(c, domain, f, now)
  }

  // ---------------------------------------------------------------------------------------------
  // updateIP and CacheCleanup
  // ---------------------------------------------------------------------------------------------

  function Current(c: Cache, domain: string): Record {
    if domain in c then c[domain] else Record(None, None)
  }

  function Side(r: Record, f: Family): Option<Rec> {
    if f.V4? then r.a else r.aaaa
  }

  function Other(f: Family): Family {
    if f.V4? then V6 else V4
  }

  function Updated(c: Cache, domain: string, f: Family, rec: Rec, disableCache: bool, now: int): Cache {
    var r := Current(c, domain);
    var rest := if disableCache then Side(r, Other(f)) else Touched(Side(r, Other(f)), now);
    c[domain := if f.V4? then Record(Some(rec), rest) else Record(rest, Some(rec))]
  }

  /** The families whose subscribers are told: the one updated, and the other if it has an answer. */
  function Published(c: Cache, domain: string, f: Family, disableCache: bool, now: int): seq<Family> {
    if !disableCache && Get(Side(Current(c, domain), Other(f)), now).err != Some(NotFound) then [f, Other(f)] else [f]
  }

  function Trimmed(r: Option<Rec>, now: int): Option<Rec> {
    if r.Some? && r.value.expire < now then None else r
  }

  function TrimmedRecord(r: Record, now: int): Record {
    Record(Trimmed(r.a, now), Trimmed(r.aaaa, now))
  }

  function Cleaned(c: Cache, now: int): Cache {
    map d | d in c && TrimmedRecord(c[d], now) != Record(None, None) :: TrimmedRecord(c[d], now)
  }

  // ---------------------------------------------------------------------------------------------
  // The controller
  // ---------------------------------------------------------------------------------------------

  class CacheController {
    var ips: Cache
    const disableCache: bool

    constructor (disableCache: bool)
      ensures ips == map[] && this.disableCache == disableCache
    {
      ips := map[];
      this.disableCache := disableCache;
    }

    method CacheCleanup(now: int) returns (stop: bool)
      modifies this
      ensures ips == Cleaned(old(ips), now)
      ensures stop <==> old(ips) == map[]
    {
      if |ips| == 0 {
        return true;
      }
      stop := false;
      var todo := ips.Keys;
      while todo != {}
        invariant todo <= old(ips).Keys
        invariant forall d :: d in todo ==> d in ips && ips[d] == old(ips)[d]
        invariant forall d :: d in ips && d !in todo ==>
          d in old(ips) && ips[d] == TrimmedRecord(old(ips)[d], now) && ips[d] != Record(None, None)
        invariant forall d | d in old(ips) && d !in todo ::
                    TrimmedRecord(old(ips)[d], now) != Record(None, None) ==> d in ips
        decreases |todo|
      {
        var domain :| domain in todo;
        var record := ips[domain];
        if record.a.Some? && record.a.value.expire < now {
          record := record.(a := None);
        }
        if record.aaaa.Some? && record.aaaa.value.expire < now {
          record := record.(aaaa := None);
        }
        if record.a.None? && record.aaaa.None? {
          ips := ips - {domain};
        } else {
          ips := ips[domain := record];
        }
        todo := todo - {domain};
      }
    }

    method UpdateIP(domain: string, f: Family, rec: Rec, now: int) returns (published: seq<Family>)
      modifies this
      ensures ips == Updated(old(ips), domain, f, rec, disableCache, now)
      ensures published == Published(old(ips), domain, f, disableCache, now)
    {
      var record := if domain in ips then ips[domain] else Record(None, None);
      published := [f];
      match f {
        case V4 =>
          record := record.(a := Some(rec));
          if !disableCache {
            var other := Get(record.aaaa, now);
            record := record.(aaaa := Touched(record.aaaa, now));
            if other.err != Some(NotFound) {
              published := published + [V6];
            }
          }
        case V6 =>
          record := record.(aaaa := Some(rec));
          if !disableCache {
            var other := Get(record.a, now);
            record := record.(a := Touched(record.a, now));
            if other.err != Some(NotFound) {
              published := published + [V4];
            }
          }
      }
      ips := ips[domain := record];
    }

    method FindIPsForDomain(domain: string, option: Families, now: int) returns (answer: Answer)
      modifies this
      ensures ips == LookupNext(old(ips), domain, option, now)
      ensures answer == Lookup(old(ips), domain, option, now)
    {
      if domain !in ips {
        return NOT_FOUND;
      }
      var errs: seq<Error>, allIPs: seq<IP>, rTTL := [], [], DEFAULT_TTL;
      var mergeReq := option.v4 && option.v6;
      if option.v4 {
        var got := Get(ips[domain].a, now);
        ips := ips[domain := ips[domain].(a := Touched(ips[domain].a, now))];
        if !mergeReq || got.err == Some(NotFound) {
          return got;
        }
        rTTL := Min(rTTL, got.ttl);
        if |got.ips| > 0 {
          allIPs := allIPs + got.ips;
        } else {
          errs := errs + [got.err.value];
        }
      }
      if option.v6 {
        var got := Get(ips[domain].aaaa, now);
        ips := ips[domain := ips[domain].(aaaa := Touched(ips[domain].aaaa, now))];
        if !mergeReq || got.err == Some(NotFound) {
          return got;
        }
        rTTL := Min(rTTL, got.ttl);
        if |got.ips| > 0 {
          allIPs := allIPs + got.ips;
        } else {
          errs := errs + [got.err.value];
        }
      }
      if |allIPs| > 0 {
        return Answer(allIPs, rTTL, None);
      }
      if |errs| < 2 {
        return Panic;
      }
      if errs[0] == errs[1] {
        return Answer([], rTTL, Some(errs[0]));
      }
      return Answer([], rTTL, Some(Combined(errs[0], errs[1])));
    }
  }

  // ---------------------------------------------------------------------------------------------
  // What lookups return
  // ---------------------------------------------------------------------------------------------

  /** The addresses of a record that has not expired and holds a successful answer. */
  function Good(r: Option<Rec>, now: int): seq<IP> {
    if r.Some? && !Expired(r.value, now) && r.value.rcode == 0 then r.value.ips else []
  }

  predicate Alive(r: Option<Rec>, now: int) {
    r.Some? && !Expired(r.value, now)
  }

  /** What a live record without a good answer stands for: its response code, or that there is no address. */
  function Failure(r: Rec): Error {
    if r.rcode != 0 then RCode(r.rcode) else Empty
  }

  /**
   * Whether x is the answer that the records of the families asked for give: the addresses of those
   * that have not expired, v4 first, and of no other; success exactly if every family asked for has
   * such a record and there is an address among them; not found exactly if one has none; else what
   * the records stand for, both if they differ. No record used expires before the TTL less one
   * second; with one family it does within the TTL, with two one of them does or the TTL is 300.
   */
  predicate Answers(x: Answer, a: Option<Rec>, aaaa: Option<Rec>, v4: bool, v6: bool, now: int) {
    var all := (if v4 then Good(a, now) else []) + (if v6 then Good(aaaa, now) else []);
    var alive := (v4 ==> Alive(a, now)) && (v6 ==> Alive(aaaa, now));
    && x.Answer?
    && x.ips == (if alive then all else [])
    && (x.err.None? <==> alive && all != [])
    && (x.err == Some(NotFound) <==> !alive)
    && (alive && all == [] && v4 && v6 ==>
          x.err == Some(if Failure(a.value) == Failure(aaaa.value) then Failure(a.value)
                        else Combined(Failure(a.value), Failure(aaaa.value))))
    && (alive && all == [] && v4 && !v6 ==> x.err == Some(Failure(a.value)))
    && (alive && all == [] && !v4 && v6 ==> x.err == Some(Failure(aaaa.value)))
    && (!alive ==> x.ttl == 0)
    && (v4 && alive ==> 0 < x.ttl && now + (x.ttl - 1) * 1_000_000_000 <= a.value.expire)
    && (v6 && alive ==> 0 < x.ttl && now + (x.ttl - 1) * 1_000_000_000 <= aaaa.value.expire)
    && (v4 && !v6 && alive ==> a.value.expire < now + x.ttl * 1_000_000_000)
    && (!v4 && v6 && alive ==> aaaa.value.expire < now + x.ttl * 1_000_000_000)
    && (v4 && v6 && alive ==>
          x.ttl <= 300 && (x.ttl == 300 || a.value.expire < now + x.ttl * 1_000_000_000
                           || aaaa.value.expire < now + x.ttl * 1_000_000_000))
  }

  lemma LookupSound(c: Cache, domain: string, f: Families, now: int)
    requires f.v4 || f.v6
    ensures var r := Current(c, domain); Answers(Lookup(c, domain, f, now), r.a, r.aaaa, f.v4, f.v6, now)
  {
  }

  /** A query is a lookup of the families it wants that are enabled; without any it finds no address. */
  lemma QuerySound(c: Cache, domain: string, wanted: Families, enabled: Families, now: int)
    ensures var x, r := Query(c, domain, wanted, enabled, now), Current(c, domain);
      var v4, v6 := wanted.v4 && enabled.v4, wanted.v6 && enabled.v6;
      if v4 || v6 then Answers(x, r.a, r.aaaa, v4, v6, now)
      else x == Answer([], 0, Some(Empty)) && QueryNext(c, domain, wanted, enabled, now) == c
  {
    var f := Narrowed(wanted, enabled);
    if f.v4 || f.v6 {
      LookupSound(c, domain, f, now);
    }
  }

  /**
   * A lookup leaves the cache as it is, but for a record it used with less than a second to live:
   * that one lives one second more. The v6 record is used only if the v4 one, if asked for, is alive.
   */
  lemma LookupLeaves(c: Cache, domain: string, f: Families, now: int, other: string, g: Family)
    ensures var x, y := Held(c, other, g), Held(LookupNext(c, domain, f, now), other, g);
      var used := other == domain &&
                  if g.V4? then f.v4 else f.v6 && (f.v4 ==> Alive(Held(c, domain, V4), now));
      y == if used && Alive(x, now) && x.value.expire < now + 1_000_000_000
           then Some(x.value.(expire := now + 1_000_000_000)) else x
  {
  }

  /** Two lookups of a domain less than a second apart both find what the first found. */
  lemma LookupAgain(c: Cache, domain: string, f: Families, now: int, later: int)
    requires (f.v4 || f.v6) && now <= later < now + 1_000_000_000
    requires Lookup(c, domain, f, now).err != Some(NotFound)
    ensures var d := LookupNext(c, domain, f, now);
      && Lookup(d, domain, f, later).ips == Lookup(c, domain, f, now).ips
      && Lookup(d, domain, f, later).err == Lookup(c, domain, f, now).err
  {
    var r := Current(c, domain);
    TouchedLasts(r.a, now, later);
    TouchedLasts(r.aaaa, now, later);
  }

  lemma TouchedLasts(r: Option<Rec>, now: int, later: int)
    requires now <= later < now + SECOND
    ensures Get(r, now).err != Some(NotFound) ==>
      Get(Touched(r, now), later).ips == Get(r, now).ips && Get(Touched(r, now), later).err == Get(r, now).err
  {
  }

  /**
   * An update is what the next lookup of its family finds; the other family keeps its answer, and
   * is told of the update exactly if it has one; other domains are not touched.
   */
  lemma UpdateSound(c: Cache, domain: string, f: Family, rec: Rec, disableCache: bool, now: int)
    ensures var d, x := Updated(c, domain, f, rec, disableCache, now), Held(c, domain, Other(f));
      && Held(d, domain, f) == Some(rec)
      && Held(d, domain, Other(f)) == (
           if !disableCache && Alive(x, now) && x.value.expire < now + 1_000_000_000
           then Some(x.value.(expire := now + 1_000_000_000)) else x)
      && Get(Held(d, domain, Other(f)), now).ips == Get(Held(c, domain, Other(f)), now).ips
      && Get(Held(d, domain, Other(f)), now).err == Get(Held(c, domain, Other(f)), now).err
      && Lookup(d, domain, Families(f.V4?, f.V6?), now) == Get(Some(rec), now)
      && (forall other :: other != domain ==> Current(d, other) == Current(c, other))
    ensures Published(c, domain, f, disableCache, now) ==
            if !disableCache && Alive(Held(c, domain, Other(f)), now) then [f, Other(f)] else [f]
  {
    TouchedLasts(Held(c, domain, Other(f)), now, now);
  }

  /** A clean-up leaves no expired record behind and takes no other away. */
  lemma CleanedSound(c: Cache, now: int, domain: string, f: Family)
    ensures var x := Held(Cleaned(c, now), domain, f);
      && (x.Some? ==> x == Held(c, domain, f) && x.value.expire >= now)
      && (x.None? ==> Held(c, domain, f).None? || Held(c, domain, f).value.expire < now)
    ensures domain in Cleaned(c, now) ==> Cleaned(c, now)[domain] != Record(None, None)
  {
    assert Held(Cleaned(c, now), domain, f) == Trimmed(Held(c, domain, f), now);
  }

  // ---------------------------------------------------------------------------------------------
  // Cleaning up is invisible
  // ---------------------------------------------------------------------------------------------

  function Held(c: Cache, domain: string, f: Family): Option<Rec> {
    Side(Current(c, domain), f)
  }

  /** x is y, or y has expired and x is nothing. */
  predicate Hides(x: Option<Rec>, y: Option<Rec>, now: int) {
    x == y || (x == None && Expired(y.value, now))
  }

  /** c holds what d holds, but for records that have expired. */
  ghost predicate Sim(c: Cache, d: Cache, now: int) {
    forall domain, f :: Hides(Held(c, domain, f), Held(d, domain, f), now)
  }

  lemma HidesSame(x: Option<Rec>, y: Option<Rec>, now: int)
    requires Hides(x, y, now)
    ensures Get(x, now) == Get(y, now)
    ensures Hides(Touched(x, now), Touched(y, now), now)
  {
  }

  lemma FoundSame(x: Record, y: Record, f: Families, now: int)
    requires Hides(x.a, y.a, now) && Hides(x.aaaa, y.aaaa, now)
    ensures Found(x, f, now) == Found(y, f, now)
    ensures Hides(FoundNext(x, f, now).a, FoundNext(y, f, now).a, now)
    ensures Hides(FoundNext(x, f, now).aaaa, FoundNext(y, f, now).aaaa, now)
  {
    HidesSame(x.a, y.a, now);
    HidesSame(x.aaaa, y.aaaa, now);
  }

  /** Of the two caches, the answers to a lookup are the same, unless it asks for no family at all. */
  lemma LookupSim(c: Cache, d: Cache, domain: string, f: Families, now: int)
    requires Sim(c, d, now)
    ensures Lookup(c, domain, f, now) == Lookup(d, domain, f, now) <==> f.v4 || f.v6 || (domain in c <==> domain in d)
    ensures Sim(LookupNext(c, domain, f, now), LookupNext(d, domain, f, now), now)
  {
    var x, y := Current(c, domain), Current(d, domain);
    assert Hides(Held(c, domain, V4), Held(d, domain, V4), now) && Hides(Held(c, domain, V6), Held(d, domain, V6), now);
    FoundSame(x, y, f, now);
    var c', d' := LookupNext(c, domain, f, now), LookupNext(d, domain, f, now);
    assert Current(c', domain) == FoundNext(x, f, now);
    assert Current(d', domain) == FoundNext(y, f, now);
    forall dom, g ensures Hides(Held(c', dom, g), Held(d', dom, g), now) {
      assert Hides(Held(c, dom, g), Held(d, dom, g), now);
    }
  }

  /** The answers to a query are the same. */
  lemma QuerySim(c: Cache, d: Cache, domain: string, wanted: Families, enabled: Families, now: int)
    requires Sim(c, d, now)
    ensures Query(c, domain, wanted, enabled, now) == Query(d, domain, wanted, enabled, now)
    ensures Query(c, domain, wanted, enabled, now).Answer?
    ensures Sim(QueryNext(c, domain, wanted, enabled, now), QueryNext(d, domain, wanted, enabled, now), now)
  {
    LookupSim(c, d, domain, Narrowed(wanted, enabled), now);
  }

  lemma UpdateSim(c: Cache, d: Cache, domain: string, f: Family, rec: Rec, disableCache: bool, now: int)
    requires Sim(c, d, now)
    ensures Published(c, domain, f, disableCache, now) == Published(d, domain, f, disableCache, now)
    ensures Sim(Updated(c, domain, f, rec, disableCache, now), Updated(d, domain, f, rec, disableCache, now), now)
  {
    var x, y := Held(c, domain, Other(f)), Held(d, domain, Other(f));
    assert Hides(x, y, now);
    HidesSame(x, y, now);
    var c', d' := Updated(c, domain, f, rec, disableCache, now), Updated(d, domain, f, rec, disableCache, now);
    forall dom, g ensures Hides(Held(c', dom, g), Held(d', dom, g), now) {
      assert Hides(Held(c, dom, g), Held(d, dom, g), now);
    }
  }

  lemma CleanSim(c: Cache, d: Cache, now: int)
    requires Sim(c, d, now)
    ensures Sim(Cleaned(c, now), d, now)
  {
    forall dom, g ensures Hides(Held(Cleaned(c, now), dom, g), Held(d, dom, g), now) {
      assert Hides(Held(c, dom, g), Held(d, dom, g), now);
      assert Held(Cleaned(c, now), dom, g) == Trimmed(Held(c, dom, g), now);
    }
  }

  lemma LaterSim(c: Cache, d: Cache, now: int, later: int)
    requires Sim(c, d, now) && now <= later
    ensures Sim(c, d, later)
  {
    forall dom, g ensures Hides(Held(c, dom, g), Held(d, dom, g), later) {
      assert Hides(Held(c, dom, g), Held(d, dom, g), now);
    }
  }

  datatype Op =
    | Update(domain: string, family: Family, rec: Rec)
    | Find(domain: string, wanted: Families, enabled: Families)
    | Cleanup

  datatype Timed = Timed(now: int, op: Op)

  /** What an operation shows to the outside. */
  datatype Output = Answered(answer: Answer) | Told(domain: string, families: seq<Family>)

  function Step(c: Cache, t: Timed, disableCache: bool): Cache {
    match t.op
    case Update(domain, f, rec) => Updated(c, domain, f, rec, disableCache, t.now)
    case Find(domain, f, enabled) => QueryNext(c, domain, f, enabled, t.now)
    case Cleanup => Cleaned(c, t.now)
  }

  function Shown(c: Cache, t: Timed, disableCache: bool): seq<Output> {
    match t.op
    case Update(domain, f, rec) => [Told(domain, Published(c, domain, f, disableCache, t.now))]
    case Find(domain, f, enabled) => [Answered(Query(c, domain, f, enabled, t.now))]
    case Cleanup => []
  }

  function Outputs(c: Cache, ops: seq<Timed>, disableCache: bool): seq<Output>
    decreases |ops|
  {
    if ops == [] then []
    else Shown(c, ops[0], disableCache) + Outputs(Step(c, ops[0], disableCache), ops[1..], disableCache)
  }

  function WithoutCleanups(ops: seq<Timed>): seq<Timed> {
    if ops == [] then []
    else if ops[0].op.Cleanup? then WithoutCleanups(ops[1..])
    else [ops[0]] + WithoutCleanups(ops[1..])
  }

  predicate Ordered(ops: seq<Timed>) {
    forall i, j :: 0 <= i < j < |ops| ==> ops[i].now <= ops[j].now
  }

  lemma {:induction false} OutputsSim(c: Cache, d: Cache, now: int, ops: seq<Timed>, disableCache: bool)
    requires Sim(c, d, now) && Ordered(ops) && (ops != [] ==> now <= ops[0].now)
    ensures Outputs(c, ops, disableCache) == Outputs(d, WithoutCleanups(ops), disableCache)
    decreases |ops|
  {
    if ops != [] {
      var t := ops[0];
      LaterSim(c, d, now, t.now);
      assert |ops| > 1 ==> t.now <= ops[1].now;
      var c' := Step(c, t, disableCache);
      match t.op {
        case Cleanup =>
          CleanSim(c, d, t.now);
          OutputsSim(c', d, t.now, ops[1..], disableCache);
        case Update(domain, f, rec) =>
          UpdateSim(c, d, domain, f, rec, disableCache, t.now);
          OutputsSim(c', Step(d, t, disableCache), t.now, ops[1..], disableCache);
          assert WithoutCleanups(ops)[1..] == WithoutCleanups(ops[1..]);
        case Find(domain, f, enabled) =>
          QuerySim(c, d, domain, f, enabled, t.now);
          OutputsSim(c', Step(d, t, disableCache), t.now, ops[1..], disableCache);
          assert WithoutCleanups(ops)[1..] == WithoutCleanups(ops[1..]);
      }
    }
  }

  /**
   * For every sequence of updates, queries and clean-ups whose times do not go back: every query
   * returns the same addresses, TTL and error, and every update tells the same subscribers, as
   * without the clean-ups.
   */
  lemma CleanupIsInvisible(ops: seq<Timed>, disableCache: bool)
    requires Ordered(ops)
    ensures Outputs(map[], ops, disableCache) == Outputs(map[], WithoutCleanups(ops), disableCache)
  {
    if ops != [] {
      OutputsSim(map[], map[], ops[0].now, ops, disableCache);
    }
  }
}
