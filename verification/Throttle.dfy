/** The throttles built on one shared limiter: which buckets a request charges, and the Retry-After it may answer. */
module Throttle {
  import opened Prelude
  import opened RateLimit

  const SECOND: Time := 1_000_000_000
  const MINUTE: Time := 60 * SECOND

  /** The buckets: API requests of an IP, login attempts from an IP, login attempts for an email. */
  datatype Bucket = ApiClient(ip: string) | LoginIp(ip: string) | LoginEmail(email: string)

  function KeyOf(b: Bucket): string {
    match b
    case ApiClient(ip) => "api:" + ip
    case LoginIp(ip) => "login-ip:" + ip
    case LoginEmail(email) => "login-email:" + email
  }

  function QuotaOf(b: Bucket): nat { match b case ApiClient(_) => 120 case LoginIp(_) => 5 case LoginEmail(_) => 20 }

  /** The three families never share a key, and within a family distinct clients have distinct keys. */
  lemma BucketsAreApart(x: Bucket, y: Bucket)
    ensures KeyOf(x) == KeyOf(y) <==> x == y
  {
    var p, q := KeyOf(x), KeyOf(y);
    assert p[0] == (if x.ApiClient? then 'a' else 'l') && q[0] == (if y.ApiClient? then 'a' else 'l');
    assert x.LoginIp? ==> p[6] == 'i' && p[9..] == x.ip;
    assert y.LoginIp? ==> q[6] == 'i' && q[9..] == y.ip;
    assert x.LoginEmail? ==> p[6] == 'e' && p[12..] == x.email;
    assert y.LoginEmail? ==> q[6] == 'e' && q[12..] == y.email;
    assert x.ApiClient? ==> p[4..] == x.ip;
    assert y.ApiClient? ==> q[4..] == y.ip;
  }

  // Retry-After

  /** Seconds announced for a remaining duration: rounded up, at least one. */
  function RetryAfter(remaining: Time): int {
    var secs := if remaining > 0 then (remaining + SECOND - 1) / SECOND else 0;
    if secs < 1 then 1 else secs
  }

  /** A counter hit at `now` has a reset time no more than a window away. */
  predicate Live(c: Counter, now: Time) { now <= c.resetAt <= now + MINUTE }

  /** A blocked client is told 1 to 60 seconds; a next hit strictly later than that is admitted. */
  lemma RetryIsHonest(c: Counter, max: nat, now: Time, later: Time, again: Time)
    requires Live(c, now) && now <= later && max >= 1
    ensures 1 <= RetryAfter(c.resetAt - later) <= 60
    ensures again > later + RetryAfter(c.resetAt - later) * SECOND ==> Next(Some(c), MINUTE, again).count <= max
  {
  }

  /** Coming back on the announced second itself fails exactly when whole seconds were left. */
  lemma RetryOnTheDot(c: Counter, max: nat, now: Time, later: Time)
    requires Live(c, now) && now <= later && c.count > max >= 1
    ensures var left := c.resetAt - later;
            Next(Some(c), MINUTE, later + RetryAfter(left) * SECOND).count > max <==> left > 0 && left % SECOND == 0
  {
    var left := c.resetAt - later;
    if left > 0 {
      var q, r := left / SECOND, left % SECOND;
      assert left == q * SECOND + r;
    }
  }

  // The middlewares

  function Charge(w: Windows, b: Bucket, at: Time): Windows {
    w[KeyOf(b) := Next(Lookup(w, KeyOf(b)), MINUTE, at)]
  }

  predicate Admits(w: Windows, b: Bucket, at: Time) { Charge(w, b, at)[KeyOf(b)].count <= QuotaOf(b) }

  /** A chain of middlewares, each charging its bucket at its own instant; the first refusal ends it. */
  function Chain(w: Windows, bs: seq<Bucket>, ats: seq<Time>): Windows
    requires |bs| == |ats|
    decreases bs
  {
    if bs == [] then w
    else
      var w' := Charge(w, bs[0], ats[0]);
      if Admits(w, bs[0], ats[0]) then Chain(w', bs[1..], ats[1..]) else w'
  }

  /** How many of the chain's buckets admitted the request. */
  function Admissions(w: Windows, bs: seq<Bucket>, ats: seq<Time>): (n: nat)
    requires |bs| == |ats|
    ensures n <= |bs|
    decreases bs
  {
    if bs == [] || !Admits(w, bs[0], ats[0]) then 0
    else 1 + Admissions(Charge(w, bs[0], ats[0]), bs[1..], ats[1..])
  }

  datatype Verdict = Pass | TooMany(retryAfter: int)

  /** Passing means every bucket admitted; a refusal announces the wait of the bucket that refused. */
  predicate Answers(v: Verdict, w: Windows, w': Windows, bs: seq<Bucket>, ats: seq<Time>, laters: seq<Time>)
    requires |bs| == |ats| == |laters|
  {
    var n := Admissions(w, bs, ats);
    && (v.Pass? <==> n == |bs|)
    && (v.TooMany? ==> n < |bs| && KeyOf(bs[n]) in w'
                       && v.retryAfter == RetryAfter(w'[KeyOf(bs[n])].resetAt - laters[n]))
  }

  method ApiThrottle(l: Limiter, ip: string, now: Time, later: Time) returns (v: Verdict)
    modifies l
    ensures l.windows == Chain(old(l.windows), [ApiClient(ip)], [now])
    ensures Answers(v, old(l.windows), l.windows, [ApiClient(ip)], [now], [later])
    ensures "api:" + ip in l.windows && (v.Pass? <==> l.windows["api:" + ip].count <= 120)
  {
    var b := ApiClient(ip);
    var ok, retry := l.Hit(KeyOf(b), QuotaOf(b), MINUTE, now, later);
    if !ok { return TooMany(RetryAfter(retry)); }
    return Pass;
  }

  /** The IP bucket is charged at the first instant, the email bucket at the second and only after the IP's consent. */
  method LoginThrottle(l: Limiter, ip: string, email: string, nows: seq<Time>, laters: seq<Time>) returns (v: Verdict)
    requires |nows| == |laters| == 2
    modifies l
    ensures l.windows == Chain(old(l.windows), [LoginIp(ip), LoginEmail(email)], nows)
    ensures Answers(v, old(l.windows), l.windows, [LoginIp(ip), LoginEmail(email)], nows, laters)
    ensures "login-ip:" + ip in l.windows
    ensures l.windows["login-ip:" + ip].count > 5 ==>
              v.TooMany? && l.windows == old(l.windows)["login-ip:" + ip := l.windows["login-ip:" + ip]]
    ensures l.windows["login-ip:" + ip].count <= 5 ==>
              "login-email:" + email in l.windows && (v.Pass? <==> l.windows["login-email:" + email].count <= 20)
  {
    var b, b' := LoginIp(ip), LoginEmail(email);
    assert [b, b'][1..] == [b'] && nows[1..] == [nows[1]];
    BucketsAreApart(b, b');
    var ok, retry := l.Hit(KeyOf(b), QuotaOf(b), MINUTE, nows[0], laters[0]);
    assert l.windows == Charge(old(l.windows), b, nows[0]);
    if !ok { return TooMany(RetryAfter(retry)); }
    ghost var mid := l.windows;
    assert Chain(mid, [b'], [nows[1]]) == Charge(mid, b', nows[1]);
    ok, retry := l.Hit(KeyOf(b'), QuotaOf(b'), MINUTE, nows[1], laters[1]);
    if !ok { return TooMany(RetryAfter(retry)); }
    return Pass;
  }

  /** The login route sits in the API group: its request is charged there first. */
  method LoginRoute(l: Limiter, ip: string, email: string, nows: seq<Time>, laters: seq<Time>) returns (v: Verdict)
    requires |nows| == |laters| == 3
    modifies l
    ensures l.windows == Chain(old(l.windows), Route(Login(ip, email)), nows)
    ensures Answers(v, old(l.windows), l.windows, Route(Login(ip, email)), nows, laters)
  {
    assert Route(Login(ip, email))[1..] == [LoginIp(ip), LoginEmail(email)];
    v := ApiThrottle(l, ip, nows[0], laters[0]);
    if v.Pass? { v := LoginThrottle(l, ip, email, nows[1..], laters[1..]); }
  }

  // Runs of requests whose hits interleave

  /** A request of the API group, of which logging in is one. */
  datatype Request = Api(ip: string) | Login(ip: string, email: string)

  /** The buckets a request is charged to, in order. */
  function Route(r: Request): seq<Bucket> {
    match r
    case Api(ip) => [ApiClient(ip)]
    case Login(ip, email) => [ApiClient(ip), LoginIp(ip), LoginEmail(email)]
  }

  /** How far a request got. */
  datatype Standing = Standing(passed: nat, refused: bool)

  /** Request `id` makes its next hit. The limiter's lock lets hits happen one at a time; requests overlap freely. */
  datatype Turn = Turn(id: nat, at: Time)

  datatype World = World(windows: Windows, standings: seq<Standing>)

  predicate Waiting(w: World, rs: seq<Request>, id: nat) {
    id < |rs| == |w.standings| && !w.standings[id].refused && w.standings[id].passed < |Route(rs[id])|
  }

  predicate Through(w: World, rs: seq<Request>, id: nat) {
    id < |rs| == |w.standings| && !w.standings[id].refused && w.standings[id].passed == |Route(rs[id])|
  }

  function NextBucket(w: World, rs: seq<Request>, id: nat): Bucket
    requires Waiting(w, rs, id)
  {
    Route(rs[id])[w.standings[id].passed]
  }

  function Judged(s: Standing, ok: bool): Standing { if ok then s.(passed := s.passed + 1) else s.(refused := true) }

  function Step(w: World, rs: seq<Request>, t: Turn): World {
    if !Waiting(w, rs, t.id) then w
    else
      var b := NextBucket(w, rs, t.id);
      World(Charge(w.windows, b, t.at),
            w.standings[t.id := Judged(w.standings[t.id], Admits(w.windows, b, t.at))])
  }

  function StepAll(w: World, rs: seq<Request>, ts: seq<Turn>): World
    decreases ts
  {
    if ts == [] then w else StepAll(Step(w, rs, ts[0]), rs, ts[1..])
  }

  function Turns(id: nat, ats: seq<Time>): seq<Turn> { seq(|ats|, i requires 0 <= i < |ats| => Turn(id, ats[i])) }

  /** A request whose turns are not interrupted does to the limiter what the chain of its middlewares does. */
  lemma {:induction false} UninterruptedIsChain(w: World, rs: seq<Request>, id: nat, ats: seq<Time>)
    requires id < |rs| == |w.standings| && !w.standings[id].refused
    requires w.standings[id].passed + |ats| == |Route(rs[id])|
    ensures var bs, w' := Route(rs[id])[w.standings[id].passed..], StepAll(w, rs, Turns(id, ats));
            && w'.windows == Chain(w.windows, bs, ats)
            && (Through(w', rs, id) <==> Admissions(w.windows, bs, ats) == |bs|)
    decreases ats
  {
    if ats != [] {
      var bs, w1 := Route(rs[id])[w.standings[id].passed..], Step(w, rs, Turn(id, ats[0]));
      assert Turns(id, ats)[1..] == Turns(id, ats[1..]);
      if Admits(w.windows, bs[0], ats[0]) {
        assert bs[1..] == Route(rs[id])[w1.standings[id].passed..];
        UninterruptedIsChain(w1, rs, id, ats[1..]);
      } else {
        RefusedStays(w1, rs, id, Turns(id, ats[1..]));
      }
    }
  }

  lemma {:induction false} RefusedStays(w: World, rs: seq<Request>, id: nat, ts: seq<Turn>)
    requires id < |rs| == |w.standings| && w.standings[id].refused
    requires forall i :: 0 <= i < |ts| ==> ts[i].id == id
    ensures StepAll(w, rs, ts) == w
    decreases ts
  {
    if ts != [] { RefusedStays(w, rs, id, ts[1..]); }
  }

  function WorldAt(rs: seq<Request>, ts: seq<Turn>, n: nat): (w: World)
    requires n <= |ts|
    ensures |w.standings| == |rs|
  {
    if n == 0 then World(map[], seq(|rs|, _ => Standing(0, false))) else Step(WorldAt(rs, ts, n - 1), rs, ts[n - 1])
  }

  /** The clock read under the lock does not run backwards. */
  predicate Ordered(ts: seq<Turn>) { forall i, j :: 0 <= i <= j < |ts| ==> ts[i].at <= ts[j].at }

  /** The i-th turn hits bucket b. */
  predicate Charges(rs: seq<Request>, ts: seq<Turn>, i: nat, b: Bucket)
    requires i < |ts|
  {
    Waiting(WorldAt(rs, ts, i), rs, ts[i].id) && NextBucket(WorldAt(rs, ts, i), rs, ts[i].id) == b
  }

  predicate IsAdmitted(rs: seq<Request>, ts: seq<Turn>, i: nat, b: Bucket)
    requires i < |ts|
  {
    Charges(rs, ts, i, b) && Admits(WorldAt(rs, ts, i).windows, b, ts[i].at)
  }

  // What the runs guarantee

  /** A request that got past its j-th bucket was admitted there by one of its own earlier turns. */
  lemma {:induction false} PassedWasAdmitted(rs: seq<Request>, ts: seq<Turn>, n: nat, id: nat, j: nat) returns (i: nat)
    requires n <= |ts| && id < |rs| && j < WorldAt(rs, ts, n).standings[id].passed
    ensures i < n && ts[i].id == id && WorldAt(rs, ts, i).standings[id].passed == j < |Route(rs[id])|
    ensures IsAdmitted(rs, ts, i, Route(rs[id])[j])
  {
    if j < WorldAt(rs, ts, n - 1).standings[id].passed {
      i := PassedWasAdmitted(rs, ts, n - 1, id, j);
    } else {
      i := n - 1;
    }
  }

  /** A login is charged to its IP's login bucket, and then to its email's, only after the buckets before let it in. */
  lemma ChargedInOrder(rs: seq<Request>, ts: seq<Turn>, n: nat, j: nat) returns (i: nat)
    requires n < |ts| && Waiting(WorldAt(rs, ts, n), rs, ts[n].id)
    requires j < WorldAt(rs, ts, n).standings[ts[n].id].passed
    ensures i < n && ts[i].id == ts[n].id && IsAdmitted(rs, ts, i, Route(rs[ts[n].id])[j])
    ensures Route(rs[ts[n].id])[j] != NextBucket(WorldAt(rs, ts, n), rs, ts[n].id)
  {
    i := PassedWasAdmitted(rs, ts, n, ts[n].id, j);
  }

  /** The instants of the hits on bucket b among the first n turns. */
  function HitsOn(rs: seq<Request>, ts: seq<Turn>, b: Bucket, n: nat): seq<Time>
    requires n <= |ts|
  {
    if n == 0 then []
    else HitsOn(rs, ts, b, n - 1) + if Charges(rs, ts, n - 1, b) then [ts[n - 1].at] else []
  }

  /** A turn moves the bucket it hits by one hit and no other. */
  lemma TurnMovesBucket(w: World, rs: seq<Request>, t: Turn, b: Bucket)
    ensures Lookup(Step(w, rs, t).windows, KeyOf(b))
         == if Waiting(w, rs, t.id) && NextBucket(w, rs, t.id) == b
            then Some(Next(Lookup(w.windows, KeyOf(b)), MINUTE, t.at))
            else Lookup(w.windows, KeyOf(b))
  {
    if Waiting(w, rs, t.id) { BucketsAreApart(NextBucket(w, rs, t.id), b); }
  }

  lemma TurnInRun(rs: seq<Request>, ts: seq<Turn>, b: Bucket, i: nat)
    requires i < |ts|
    ensures var c := Lookup(WorldAt(rs, ts, i).windows, KeyOf(b));
            Lookup(WorldAt(rs, ts, i + 1).windows, KeyOf(b))
              == if Charges(rs, ts, i, b) then Some(Next(c, MINUTE, ts[i].at)) else c
  {
    var w := WorldAt(rs, ts, i);
    TurnMovesBucket(w, rs, ts[i], b);
    assert WorldAt(rs, ts, i + 1) == Step(w, rs, ts[i]);
  }

  lemma HitsInTurn(rs: seq<Request>, ts: seq<Turn>, b: Bucket, i: nat)
    requires i < |ts|
    ensures HitsOn(rs, ts, b, i + 1)
         == if Charges(rs, ts, i, b) then HitsOn(rs, ts, b, i) + [ts[i].at] else HitsOn(rs, ts, b, i)
  {
    assert HitsOn(rs, ts, b, i) + [] == HitsOn(rs, ts, b, i);
  }

  lemma FollowsOneMore(c: Option<Counter>, hits: seq<Time>, charged: bool, at: Time)
    requires c == After(hits, MINUTE, |hits|)
    ensures var hits' := if charged then hits + [at] else hits;
            (if charged then Some(Next(c, MINUTE, at)) else c) == After(hits', MINUTE, |hits'|)
  {
    OneMoreHit(hits, at, 0, MINUTE, 0);
  }

  predicate Follows(rs: seq<Request>, ts: seq<Turn>, b: Bucket, n: nat)
    requires n <= |ts|
  {
    var hits := HitsOn(rs, ts, b, n);
    Lookup(WorldAt(rs, ts, n).windows, KeyOf(b)) == After(hits, MINUTE, |hits|)
  }

  lemma FollowsInTurn(rs: seq<Request>, ts: seq<Turn>, b: Bucket, i: nat)
    requires i < |ts| && Follows(rs, ts, b, i)
    ensures Follows(rs, ts, b, i + 1)
  {
    TurnInRun(rs, ts, b, i);
    HitsInTurn(rs, ts, b, i);
    FollowsOneMore(Lookup(WorldAt(rs, ts, i).windows, KeyOf(b)), HitsOn(rs, ts, b, i), Charges(rs, ts, i, b), ts[i].at);
  }

  /** A bucket's counter is that of a limiter fed its own hits alone. */
  lemma {:induction false} BucketFollowsItsHits(rs: seq<Request>, ts: seq<Turn>, b: Bucket, n: nat)
    requires n <= |ts|
    ensures Follows(rs, ts, b, n)
  {
    if n > 0 {
      BucketFollowsItsHits(rs, ts, b, n - 1);
      FollowsInTurn(rs, ts, b, n - 1);
    }
  }

  lemma {:induction false} HitsAreOrdered(rs: seq<Request>, ts: seq<Turn>, b: Bucket, n: nat)
    requires n <= |ts| && Ordered(ts)
    ensures Nondecreasing(HitsOn(rs, ts, b, n))
    ensures forall i :: 0 <= i < |HitsOn(rs, ts, b, n)| ==> HitsOn(rs, ts, b, n)[i] <= ts[n - 1].at
  {
    if n > 0 { HitsAreOrdered(rs, ts, b, n - 1); }
  }

  /** In the closed minute from a, in nanoseconds. */
  predicate InMinute(at: Time, a: Time) { a <= at <= a + 60_000_000_000 }

  /** Requests that bucket b admitted within the minute from a. */
  function AdmittedIds(rs: seq<Request>, ts: seq<Turn>, b: Bucket, a: Time, n: nat): set<nat>
    requires n <= |ts|
  {
    if n == 0 then {}
    else AdmittedIds(rs, ts, b, a, n - 1)
         + if InMinute(ts[n - 1].at, a) && IsAdmitted(rs, ts, n - 1, b) then {ts[n - 1].id} else {}
  }

  /** Those requests are no more than the bucket's own limiter admitted then. */
  predicate Counted(rs: seq<Request>, ts: seq<Turn>, b: Bucket, a: Time, n: nat)
    requires n <= |ts|
  {
    var hits := HitsOn(rs, ts, b, n);
    |AdmittedIds(rs, ts, b, a, n)| <= AdmittedIn(hits, QuotaOf(b), MINUTE, a, |hits|)
  }

  lemma CountedInTurn(rs: seq<Request>, ts: seq<Turn>, b: Bucket, a: Time, i: nat)
    requires i < |ts| && Counted(rs, ts, b, a, i)
    ensures Counted(rs, ts, b, a, i + 1)
  {
    var hits, at := HitsOn(rs, ts, b, i), ts[i].at;
    HitsInTurn(rs, ts, b, i);
    if Charges(rs, ts, i, b) {
      OneMoreHit(hits, at, QuotaOf(b), MINUTE, a);
      assert Follows(rs, ts, b, i) by { BucketFollowsItsHits(rs, ts, b, i); }
      assert IsAdmitted(rs, ts, i, b) <==> Next(After(hits, MINUTE, |hits|), MINUTE, at).count <= QuotaOf(b);
    }
  }

  lemma {:induction false} AdmittedAreCounted(rs: seq<Request>, ts: seq<Turn>, b: Bucket, a: Time, n: nat)
    requires n <= |ts|
    ensures Counted(rs, ts, b, a, n)
  {
    if n > 0 {
      AdmittedAreCounted(rs, ts, b, a, n - 1);
      CountedInTurn(rs, ts, b, a, n - 1);
    } else {
      assert AdmittedIds(rs, ts, b, a, 0) == {} && HitsOn(rs, ts, b, 0) == [];
    }
  }

  /** Requests that got through all their throttles and hit bucket b within the minute from a. */
  ghost predicate PassedVia(rs: seq<Request>, ts: seq<Turn>, b: Bucket, a: Time, id: nat) {
    Through(WorldAt(rs, ts, |ts|), rs, id)
    && exists i :: 0 <= i < |ts| && ts[i].id == id && InMinute(ts[i].at, a) && Charges(rs, ts, i, b)
  }

  lemma {:induction false} RefusedForGood(rs: seq<Request>, ts: seq<Turn>, i: nat, n: nat, id: nat)
    requires i <= n <= |ts| && id < |rs| && WorldAt(rs, ts, i).standings[id].refused
    ensures WorldAt(rs, ts, n).standings[id].refused
  {
    if i < n { RefusedForGood(rs, ts, i, n - 1, id); }
  }

  lemma NotAdmittedIsRefused(rs: seq<Request>, ts: seq<Turn>, i: nat, b: Bucket)
    requires i < |ts| && Charges(rs, ts, i, b) && !IsAdmitted(rs, ts, i, b)
    ensures ts[i].id < |rs| && WorldAt(rs, ts, i + 1).standings[ts[i].id].refused
  {
    assert WorldAt(rs, ts, i + 1) == Step(WorldAt(rs, ts, i), rs, ts[i]);
  }

  lemma {:induction false} AdmittedIdIn(rs: seq<Request>, ts: seq<Turn>, b: Bucket, a: Time, i: nat, n: nat)
    requires i < n <= |ts| && InMinute(ts[i].at, a) && IsAdmitted(rs, ts, i, b)
    ensures ts[i].id in AdmittedIds(rs, ts, b, a, n)
  {
    if i < n - 1 { AdmittedIdIn(rs, ts, b, a, i, n - 1); }
  }

  lemma ChargedAndNotRefused(rs: seq<Request>, ts: seq<Turn>, b: Bucket, a: Time, i: nat)
    requires i < |ts| && InMinute(ts[i].at, a) && Charges(rs, ts, i, b)
    requires !WorldAt(rs, ts, |ts|).standings[ts[i].id].refused
    ensures ts[i].id in AdmittedIds(rs, ts, b, a, |ts|)
  {
    if !IsAdmitted(rs, ts, i, b) {
      NotAdmittedIsRefused(rs, ts, i, b);
      RefusedForGood(rs, ts, i + 1, |ts|, ts[i].id);
      assert false;
    }
    AdmittedIdIn(rs, ts, b, a, i, |ts|);
  }

  lemma PassedWereAdmitted(rs: seq<Request>, ts: seq<Turn>, b: Bucket, a: Time, id: nat)
    requires PassedVia(rs, ts, b, a, id)
    ensures id in AdmittedIds(rs, ts, b, a, |ts|)
  {
    var i :| 0 <= i < |ts| && ts[i].id == id && InMinute(ts[i].at, a) && Charges(rs, ts, i, b);
    ChargedAndNotRefused(rs, ts, b, a, i);
  }

  /**
   * Over any run, however hits interleave, and in any minute: of the requests that charge the bucket then, fewer than
   * two quotas get through. That is 239 API requests of an IP, its logins included, 9 logins of an IP, 39 for an email.
   */
  lemma ThrottleBounds(rs: seq<Request>, ts: seq<Turn>, b: Bucket, a: Time, ids: set<nat>)
    requires Ordered(ts) && forall id :: id in ids ==> PassedVia(rs, ts, b, a, id)
    ensures b.ApiClient? ==> |ids| <= 239
    ensures b.LoginIp? ==> |ids| <= 9
    ensures b.LoginEmail? ==> |ids| <= 39
  {
    forall id | id in ids ensures id in AdmittedIds(rs, ts, b, a, |ts|) { PassedWereAdmitted(rs, ts, b, a, id); }
    SubsetSize(ids, AdmittedIds(rs, ts, b, a, |ts|));
    AdmittedAreCounted(rs, ts, b, a, |ts|);
    HitsAreOrdered(rs, ts, b, |ts|);
    SlidingBound(HitsOn(rs, ts, b, |ts|), QuotaOf(b), MINUTE, a);
  }

  lemma {:induction false} SubsetSize(small: set<nat>, big: set<nat>)
    requires small <= big
    ensures |small| <= |big|
  {
    if small != {} {
      var x :| x in small;
      SubsetSize(small - {x}, big - {x});
    }
  }

  /** No request gets through uncounted: each bucket on its route was hit by it at some instant. */
  lemma ThroughChargedAll(rs: seq<Request>, ts: seq<Turn>, id: nat, j: nat) returns (a: Time)
    requires Through(WorldAt(rs, ts, |ts|), rs, id) && j < |Route(rs[id])|
    ensures PassedVia(rs, ts, Route(rs[id])[j], a, id)
  {
    var i := PassedWasAdmitted(rs, ts, |ts|, id, j);
    a := ts[i].at;
  }

  /** What a login is charged to, and what had to let it in before. */
  lemma LoginIsChargedInOrder(rs: seq<Request>, ts: seq<Turn>, n: nat, ip: string, email: string, b: Bucket)
    requires n < |ts| && Charges(rs, ts, n, b) && rs[ts[n].id] == Login(ip, email)
    ensures b == ApiClient(ip) || b == LoginIp(ip) || b == LoginEmail(email)
    ensures b != ApiClient(ip) ==>
              exists i :: 0 <= i < n && ts[i].id == ts[n].id && IsAdmitted(rs, ts, i, ApiClient(ip))
    ensures b == LoginEmail(email) ==>
              exists i :: 0 <= i < n && ts[i].id == ts[n].id && IsAdmitted(rs, ts, i, LoginIp(ip))
  {
    var passed := WorldAt(rs, ts, n).standings[ts[n].id].passed;
    if passed > 0 { var i := ChargedInOrder(rs, ts, n, 0); }
    if passed > 1 { var i := ChargedInOrder(rs, ts, n, 1); }
  }

  /** Other requests are charged to their IP's API bucket alone. */
  lemma OthersAreChargedOnce(rs: seq<Request>, ts: seq<Turn>, n: nat, ip: string, b: Bucket)
    requires n < |ts| && Charges(rs, ts, n, b) && rs[ts[n].id] == Api(ip)
    ensures b == ApiClient(ip)
  {
  }

  ghost predicate LetIn(rs: seq<Request>, ts: seq<Turn>, id: nat, b: Bucket) {
    exists i :: 0 <= i < |ts| && ts[i].id == id && IsAdmitted(rs, ts, i, b)
  }

  /** A login got through only if all three buckets admitted it. */
  lemma LoginNeedsAllThree(rs: seq<Request>, ts: seq<Turn>, id: nat, ip: string, email: string)
    requires Through(WorldAt(rs, ts, |ts|), rs, id) && rs[id] == Login(ip, email)
    ensures LetIn(rs, ts, id, ApiClient(ip)) && LetIn(rs, ts, id, LoginIp(ip)) && LetIn(rs, ts, id, LoginEmail(email))
  {
    var i0 := PassedWasAdmitted(rs, ts, |ts|, id, 0);
    var i1 := PassedWasAdmitted(rs, ts, |ts|, id, 1);
    var i2 := PassedWasAdmitted(rs, ts, |ts|, id, 2);
  }

  /** In any run a hit is admitted exactly when it is among the first 120, 5 or 20 of its window of a minute. */
  lemma AdmittedExactly(rs: seq<Request>, ts: seq<Turn>, i: nat, b: Bucket)
    requires Ordered(ts) && i < |ts| && Charges(rs, ts, i, b)
    ensures HitsOn(rs, ts, b, i + 1) != []
    ensures var hits := HitsOn(rs, ts, b, i + 1);
            var reset := After(hits, 60_000_000_000, |hits|).value.resetAt;
            var inWindow := HitsOf(hits, 60_000_000_000, reset, |hits|);
            IsAdmitted(rs, ts, i, b) <==> inWindow <= if b.ApiClient? then 120 else if b.LoginIp? then 5 else 20
  {
    var hits := HitsOn(rs, ts, b, i + 1);
    HitsInTurn(rs, ts, b, i);
    HitsAreOrdered(rs, ts, b, i + 1);
    CountIsWindowHits(hits, MINUTE, |hits|);
    assert Follows(rs, ts, b, i + 1) by { BucketFollowsItsHits(rs, ts, b, i + 1); }
    TurnInRun(rs, ts, b, i);
  }

  /** In every reachable limiter the bucket just hit resets within a minute. */
  lemma ChargedIsLive(rs: seq<Request>, ts: seq<Turn>, i: nat, b: Bucket)
    requires Ordered(ts) && i < |ts| && Charges(rs, ts, i, b)
    ensures var c := Lookup(WorldAt(rs, ts, i + 1).windows, KeyOf(b)); c.Some? && Live(c.value, ts[i].at)
  {
    var hits := HitsOn(rs, ts, b, i + 1);
    BucketFollowsItsHits(rs, ts, b, i + 1);
    HitsAreOrdered(rs, ts, b, i + 1);
    HitsInTurn(rs, ts, b, i);
    CountIsWindowHits(hits, MINUTE, |hits|);
  }

  lemma {:induction false} UntouchedStays(rs: seq<Request>, ts: seq<Turn>, b: Bucket, i: nat, n: nat)
    requires i <= n <= |ts| && forall x :: i <= x < n ==> !Charges(rs, ts, x, b)
    ensures Lookup(WorldAt(rs, ts, n).windows, KeyOf(b)) == Lookup(WorldAt(rs, ts, i).windows, KeyOf(b))
  {
    if i < n {
      UntouchedStays(rs, ts, b, i, n - 1);
      TurnInRun(rs, ts, b, n - 1);
    }
  }

  /**
   * Whatever happened before, a request refused by a bucket is told 1 to 60 seconds; and the next hit on that bucket,
   * whoever makes it, is admitted if it comes strictly later than that.
   */
  lemma RefusalIsHonest(rs: seq<Request>, ts: seq<Turn>, i: nat, b: Bucket, c: Counter, later: Time, n: nat)
    requires Ordered(ts) && i < n < |ts|
    requires Charges(rs, ts, i, b) && ts[i].at <= later
    requires Lookup(WorldAt(rs, ts, i + 1).windows, KeyOf(b)) == Some(c)
    requires Charges(rs, ts, n, b) && forall x :: i < x < n ==> !Charges(rs, ts, x, b)
    ensures 1 <= RetryAfter(c.resetAt - later) <= 60
    ensures ts[n].at > later + RetryAfter(c.resetAt - later) * SECOND ==> IsAdmitted(rs, ts, n, b)
  {
    ChargedIsLive(rs, ts, i, b);
    UntouchedStays(rs, ts, b, i + 1, n);
    RetryIsHonest(c, QuotaOf(b), ts[i].at, later, ts[n].at);
  }

  /** A next hit at the announced second itself is refused again exactly when whole seconds were left. */
  lemma RetryOnTheDotInRuns(rs: seq<Request>, ts: seq<Turn>, i: nat, b: Bucket, c: Counter, later: Time, n: nat)
    requires Ordered(ts) && i < n < |ts|
    requires Charges(rs, ts, i, b) && !IsAdmitted(rs, ts, i, b) && ts[i].at <= later
    requires Lookup(WorldAt(rs, ts, i + 1).windows, KeyOf(b)) == Some(c)
    requires Charges(rs, ts, n, b) && forall x :: i < x < n ==> !Charges(rs, ts, x, b)
    requires ts[n].at == later + RetryAfter(c.resetAt - later) * SECOND
    ensures !IsAdmitted(rs, ts, n, b) <==> c.resetAt > later && (c.resetAt - later) % SECOND == 0
  {
    ChargedIsLive(rs, ts, i, b);
    UntouchedStays(rs, ts, b, i + 1, n);
    assert c.count > QuotaOf(b) by { TurnInRun(rs, ts, b, i); }
    RetryOnTheDot(c, QuotaOf(b), ts[i].at, later);
  }

  // A client that floods the API at one instant and comes back on the announced second

  function FloodRequests(ip: string): seq<Request> { seq(122, _ => Api(ip)) }

  function FloodTurns(): seq<Turn> { seq(122, (i: nat) => Turn(i, if i < 121 then 0 else MINUTE)) }

  lemma {:induction false} FloodAt(ip: string, n: nat)
    requires n <= 121
    ensures var w := WorldAt(FloodRequests(ip), FloodTurns(), n);
            && Lookup(w.windows, KeyOf(ApiClient(ip))) == (if n == 0 then None else Some(Counter(n, MINUTE)))
            && forall id :: n <= id < 122 ==> w.standings[id] == Standing(0, false)
  {
    if n > 0 {
      FloodAt(ip, n - 1);
      FloodStep(WorldAt(FloodRequests(ip), FloodTurns(), n - 1), ip, n - 1);
    }
  }

  lemma FloodStep(w: World, ip: string, i: nat)
    requires i < 121 && |w.standings| == 122
    requires Lookup(w.windows, KeyOf(ApiClient(ip))) == if i == 0 then None else Some(Counter(i, MINUTE))
    requires forall id :: i <= id < 122 ==> w.standings[id] == Standing(0, false)
    ensures var w' := Step(w, FloodRequests(ip), FloodTurns()[i]);
            && Lookup(w'.windows, KeyOf(ApiClient(ip))) == Some(Counter(i + 1, MINUTE))
            && forall id :: i + 1 <= id < 122 ==> w'.standings[id] == Standing(0, false)
  {
  }

  /** Of requests of one IP at one instant the 120th is admitted and the 121st refused. */
  lemma ApiQuotaIsReached(ip: string)
    ensures var rs, ts, b := FloodRequests(ip), FloodTurns(), ApiClient(ip);
            IsAdmitted(rs, ts, 119, b) && Charges(rs, ts, 120, b) && !IsAdmitted(rs, ts, 120, b)
  {
    FloodAt(ip, 119);
    FloodAt(ip, 120);
  }

  /** The 121st request is refused and told 60 seconds; a request exactly 60 seconds later is refused as well. */
  lemma RetryOnTheDotIsReached(ip: string)
    ensures var rs, ts, b := FloodRequests(ip), FloodTurns(), ApiClient(ip);
            && Ordered(ts) && Charges(rs, ts, 120, b) && !IsAdmitted(rs, ts, 120, b)
            && Lookup(WorldAt(rs, ts, 121).windows, KeyOf(b)) == Some(Counter(121, MINUTE))
            && ts[121].at == ts[120].at + RetryAfter(MINUTE - ts[120].at) * SECOND
            && Charges(rs, ts, 121, b) && !IsAdmitted(rs, ts, 121, b)
  {
    var rs, ts, b := FloodRequests(ip), FloodTurns(), ApiClient(ip);
    FloodAt(ip, 120);
    FloodAt(ip, 121);
    assert RetryAfter(MINUTE) == 60;
    RetryOnTheDotInRuns(rs, ts, 120, b, Counter(121, MINUTE), 0, 121);
  }

  // Logins that flood one IP's bucket, and one email's

  function LoginsFrom(ip: string, emails: seq<string>): seq<Request>
    requires |emails| == 6
  {
    seq(6, i requires 0 <= i < 6 => Login(ip, emails[i]))
  }

  function TwoTurnsEach(): seq<Turn> { seq(12, (i: nat) => Turn(i / 2, 0)) }

  /** After n logins went past the API bucket and hit their IP's. */
  predicate IpFlooded(w: World, ip: string, n: nat) {
    && |w.standings| == 6
    && Lookup(w.windows, KeyOf(ApiClient(ip))) == (if n == 0 then None else Some(Counter(n, MINUTE)))
    && Lookup(w.windows, KeyOf(LoginIp(ip))) == (if n == 0 then None else Some(Counter(n, MINUTE)))
    && forall id :: n <= id < 6 ==> w.standings[id] == Standing(0, false)
  }

  lemma IpFloodStep(w: World, rs: seq<Request>, ip: string, email: string, n: nat)
    requires n < 6 == |rs| && IpFlooded(w, ip, n) && rs[n] == Login(ip, email)
    ensures var w1 := Step(w, rs, Turn(n, 0));
            && Waiting(w, rs, n) && Waiting(w1, rs, n) && NextBucket(w1, rs, n) == LoginIp(ip)
            && (Admits(w1.windows, LoginIp(ip), 0) <==> n < 5)
            && IpFlooded(Step(w1, rs, Turn(n, 0)), ip, n + 1)
  {
    BucketsAreApart(ApiClient(ip), LoginIp(ip));
  }

  lemma IpFloodTurns(ip: string, emails: seq<string>, n: nat)
    requires |emails| == 6 && n < 6
    requires IpFlooded(WorldAt(LoginsFrom(ip, emails), TwoTurnsEach(), 2 * n), ip, n)
    ensures IpFlooded(WorldAt(LoginsFrom(ip, emails), TwoTurnsEach(), 2 * n + 2), ip, n + 1)
    ensures var rs, ts, b := LoginsFrom(ip, emails), TwoTurnsEach(), LoginIp(ip);
            Charges(rs, ts, 2 * n + 1, b) && (IsAdmitted(rs, ts, 2 * n + 1, b) <==> n < 5)
  {
    var rs, ts := LoginsFrom(ip, emails), TwoTurnsEach();
    var w := WorldAt(rs, ts, 2 * n);
    IpFloodStep(w, rs, ip, emails[n], n);
    assert ts[2 * n] == ts[2 * n + 1] == Turn(n, 0);
    assert WorldAt(rs, ts, 2 * n + 1) == Step(w, rs, Turn(n, 0));
    assert WorldAt(rs, ts, 2 * n + 2) == Step(WorldAt(rs, ts, 2 * n + 1), rs, Turn(n, 0));
  }

  lemma {:induction false} IpFloodAt(ip: string, emails: seq<string>, n: nat, turns: nat)
    requires |emails| == 6 && n <= 6 && turns == 2 * n
    ensures IpFlooded(WorldAt(LoginsFrom(ip, emails), TwoTurnsEach(), turns), ip, n)
  {
    if n > 0 {
      IpFloodAt(ip, emails, n - 1, turns - 2);
      IpFloodTurns(ip, emails, n - 1);
    } else {
      assert WorldAt(LoginsFrom(ip, emails), TwoTurnsEach(), 0).windows == map[];
    }
  }

  /** Of logins from one IP at one instant, whatever their emails, the 5th is admitted there and the 6th refused. */
  lemma IpQuotaIsReached(ip: string, emails: seq<string>)
    requires |emails| == 6
    ensures var rs, ts, b := LoginsFrom(ip, emails), TwoTurnsEach(), LoginIp(ip);
            IsAdmitted(rs, ts, 9, b) && Charges(rs, ts, 11, b) && !IsAdmitted(rs, ts, 11, b)
  {
    IpFloodAt(ip, emails, 4, 8);
    IpFloodTurns(ip, emails, 4);
    IpFloodAt(ip, emails, 5, 10);
    IpFloodTurns(ip, emails, 5);
  }

  predicate DistinctIps(ips: seq<string>) { |ips| == 21 && forall i, j :: 0 <= i < j < 21 ==> ips[i] != ips[j] }

  function LoginsFor(email: string, ips: seq<string>): seq<Request>
    requires DistinctIps(ips)
  {
    seq(21, i requires 0 <= i < 21 => Login(ips[i], email))
  }

  function ThreeTurnsEach(): seq<Turn> { seq(63, (i: nat) => Turn(i / 3, 0)) }

  /** After n logins for the email, each from an IP of its own. */
  predicate EmailFlooded(w: World, email: string, ips: seq<string>, n: nat)
    requires DistinctIps(ips)
  {
    && |w.standings| == 21
    && Lookup(w.windows, KeyOf(LoginEmail(email))) == (if n == 0 then None else Some(Counter(n, MINUTE)))
    && forall id :: n <= id < 21 ==>
                      w.standings[id] == Standing(0, false)
                      && KeyOf(ApiClient(ips[id])) !in w.windows && KeyOf(LoginIp(ips[id])) !in w.windows
  }

  /** One such login: two fresh buckets let it in, the third counts. */
  lemma EmailFloodStep(w: World, rs: seq<Request>, email: string, ips: seq<string>, n: nat)
    requires DistinctIps(ips) && n < 21 == |rs| && EmailFlooded(w, email, ips, n) && rs[n] == Login(ips[n], email)
    ensures var w1 := Step(w, rs, Turn(n, 0));
            var w2 := Step(w1, rs, Turn(n, 0));
            && Waiting(w2, rs, n) && NextBucket(w2, rs, n) == LoginEmail(email)
            && (Admits(w2.windows, LoginEmail(email), 0) <==> n < 20)
            && EmailFlooded(Step(w2, rs, Turn(n, 0)), email, ips, n + 1)
  {
    var ip := ips[n];
    BucketsAreApart(ApiClient(ip), LoginIp(ip));
    BucketsAreApart(ApiClient(ip), LoginEmail(email));
    BucketsAreApart(LoginIp(ip), LoginEmail(email));
    forall id | n < id < 21
      ensures KeyOf(ApiClient(ips[id])) !in {KeyOf(ApiClient(ip)), KeyOf(LoginIp(ip)), KeyOf(LoginEmail(email))}
      ensures KeyOf(LoginIp(ips[id])) !in {KeyOf(ApiClient(ip)), KeyOf(LoginIp(ip)), KeyOf(LoginEmail(email))}
    {
      BucketsAreApart(ApiClient(ips[id]), ApiClient(ip));
      BucketsAreApart(ApiClient(ips[id]), LoginIp(ip));
      BucketsAreApart(ApiClient(ips[id]), LoginEmail(email));
      BucketsAreApart(LoginIp(ips[id]), ApiClient(ip));
      BucketsAreApart(LoginIp(ips[id]), LoginIp(ip));
      BucketsAreApart(LoginIp(ips[id]), LoginEmail(email));
    }
  }

  predicate EmailFloodedAt(email: string, ips: seq<string>, turns: nat, n: nat)
    requires DistinctIps(ips) && turns <= 63
  {
    EmailFlooded(WorldAt(LoginsFor(email, ips), ThreeTurnsEach(), turns), email, ips, n)
  }

  lemma EmailFloodStarts(email: string, ips: seq<string>)
    requires DistinctIps(ips)
    ensures EmailFloodedAt(email, ips, 0, 0)
  {
  }

  lemma {:induction false} EmailFloodAt(email: string, ips: seq<string>, n: nat, turns: nat)
    requires DistinctIps(ips) && n <= 21 && turns == 3 * n
    ensures EmailFloodedAt(email, ips, turns, n)
  {
    if n > 0 {
      EmailFloodAt(email, ips, n - 1, turns - 3);
      EmailFloodTurns(email, ips, n - 1);
    } else {
      EmailFloodStarts(email, ips);
    }
  }

  lemma EmailFloodTurns(email: string, ips: seq<string>, n: nat)
    requires DistinctIps(ips) && n < 21
    requires EmailFloodedAt(email, ips, 3 * n, n)
    ensures EmailFloodedAt(email, ips, 3 * n + 3, n + 1)
    ensures var rs, ts, b := LoginsFor(email, ips), ThreeTurnsEach(), LoginEmail(email);
            Charges(rs, ts, 3 * n + 2, b) && (IsAdmitted(rs, ts, 3 * n + 2, b) <==> n < 20)
  {
    var rs, ts := LoginsFor(email, ips), ThreeTurnsEach();
    var w := WorldAt(rs, ts, 3 * n);
    EmailFloodStep(w, rs, email, ips, n);
    assert ts[3 * n] == ts[3 * n + 1] == ts[3 * n + 2] == Turn(n, 0);
    assert WorldAt(rs, ts, 3 * n + 1) == Step(w, rs, Turn(n, 0));
    assert WorldAt(rs, ts, 3 * n + 2) == Step(WorldAt(rs, ts, 3 * n + 1), rs, Turn(n, 0));
    assert WorldAt(rs, ts, 3 * n + 3) == Step(WorldAt(rs, ts, 3 * n + 2), rs, Turn(n, 0));
  }

  /** Of logins for one email at one instant, each from an IP of its own, the 20th is admitted and the 21st refused. */
  lemma EmailQuotaIsReached(email: string, ips: seq<string>)
    requires DistinctIps(ips)
    ensures var rs, ts, b := LoginsFor(email, ips), ThreeTurnsEach(), LoginEmail(email);
            IsAdmitted(rs, ts, 59, b) && Charges(rs, ts, 62, b) && !IsAdmitted(rs, ts, 62, b)
  {
    EmailFloodAt(email, ips, 19, 57);
    EmailFloodTurns(email, ips, 19);
    EmailFloodAt(email, ips, 20, 60);
    EmailFloodTurns(email, ips, 20);
  }
}
