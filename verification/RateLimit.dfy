/** The token-bucket rate limiter with its bounded table and idle-bucket eviction. */
module RateLimit {
  import opened Basics

  /** Requests per window; the window is in seconds. */
  datatype Config = Config(limit: int, window: real) {
    predicate Valid() {
      limit > 0 && window > 0.0
    }

    function Fill(): real {
      limit as real
    }

    /** Tokens earned in d seconds. */
    function Earned(d: real): real
      requires Valid()
    {
      d * (Fill() / window)
    }
  }

  datatype Bucket = Bucket(tokens: real, updated: real)

  datatype Limiter = Limiter(buckets: map<string, Bucket>, lastCleanup: real)

  datatype Decision = Admit | Refuse(retryAfter: int)

  const TABLE_SIZE := 10_000

  function Min(x: real, y: real): real {
    if x < y then x else y
  }

  function Ceil(x: real): int {
    -((-x).Floor)
  }

  function Refill(c: Config, b: Bucket, now: real): Bucket
    requires c.Valid()
  {
    if now - b.updated > 0.0 then Bucket(Min(c.Fill(), b.tokens + c.Earned(now - b.updated)), now) else b
  }

  /** What the cleanup leaves, when it is due. */
  function Cleanup(c: Config, l: Limiter, now: real): Limiter {
    if now - l.lastCleanup >= c.window then
      Limiter(map key | key in l.buckets && now - l.buckets[key].updated < c.window :: l.buckets[key], now)
    else l
  }

  /** Whether a request for key finds the table full. */
  predicate Overflows(c: Config, l: Limiter, key: string, now: real) {
    var cleaned := Cleanup(c, l, now);
    key !in cleaned.buckets && |cleaned.buckets| >= TABLE_SIZE
  }

  /** Takes one token from a bucket that has been brought up to date. */
  function Take(c: Config, b: Bucket): (Bucket, Decision)
    requires c.Valid()
  {
    if b.tokens < 1.0 then (b, Refuse(Ceil((1.0 - b.tokens) / (c.Fill() / c.window))))
    else (b.(tokens := b.tokens - 1.0), Admit)
  }

  function Current(c: Config, buckets: map<string, Bucket>, key: string, now: real): Bucket
    requires c.Valid()
  {
    if key in buckets then Refill(c, buckets[key], now) else Bucket(c.Fill(), now)
  }

  /** One request, as the handler decides it. */
  function Hit(c: Config, l: Limiter, key: string, now: real): (Limiter, Decision)
    requires c.Valid()
  {
    var cleaned := Cleanup(c, l, now);
    if Overflows(c, l, key, now) then (cleaned, Refuse(Ceil(c.window)))
    else
      var (b, d) := Take(c, Current(c, cleaned.buckets, key, now));
      (cleaned.(buckets := cleaned.buckets[key := b]), d)
  }

  /** The reference: a limiter that keeps every bucket forever, in a table without a bound. */
  function ReferenceHit(c: Config, buckets: map<string, Bucket>, key: string, now: real): (map<string, Bucket>, Decision)
    requires c.Valid()
  {
    var (b, d) := Take(c, Current(c, buckets, key, now));
    (buckets[key := b], d)
  }

  // ----- levels

  /** The tokens key would find at time t. */
  function Level(c: Config, buckets: map<string, Bucket>, key: string, t: real): real
    requires c.Valid()
  {
    if key in buckets then Min(c.Fill(), buckets[key].tokens + c.Earned(t - buckets[key].updated)) else c.Fill()
  }

  /** Every bucket holds between 0 and `limit` tokens and was last used by time now. */
  ghost predicate Sound(c: Config, buckets: map<string, Bucket>, now: real) {
    forall key | key in buckets ::
      0.0 <= buckets[key].tokens <= c.Fill() && buckets[key].updated <= now
  }

  lemma EarnedAdds(c: Config, d: real, e: real)
    requires c.Valid()
    ensures c.Earned(d + e) == c.Earned(d) + c.Earned(e)
    ensures d >= 0.0 ==> c.Earned(d) >= 0.0
    ensures d <= e ==> c.Earned(d) <= c.Earned(e)
  {
    var rate := c.Fill() / c.window;
    assert rate > 0.0;
    assert (e - d) * rate == e * rate - d * rate;
    if d >= 0.0 {
      assert d * rate >= 0.0;
    }
    if d <= e {
      assert (e - d) * rate >= 0.0;
    }
  }

  /** A whole window refills an empty bucket. */
  lemma WindowFills(c: Config, d: real)
    requires c.Valid() && d >= c.window
    ensures c.Earned(d) >= c.Fill()
  {
    EarnedAdds(c, c.window, d);
    assert c.Earned(c.window) == c.Fill();
  }

  /** Cleaning up forgets only buckets that are full again. */
  lemma CleanupKeepsLevels(c: Config, l: Limiter, now: real, key: string, t: real)
    requires c.Valid() && Sound(c, l.buckets, now) && now <= t
    ensures Level(c, Cleanup(c, l, now).buckets, key, t) == Level(c, l.buckets, key, t)
    ensures Sound(c, Cleanup(c, l, now).buckets, now)
  {
    if key in l.buckets && key !in Cleanup(c, l, now).buckets {
      WindowFills(c, t - l.buckets[key].updated);
    }
  }

  /** Bringing a bucket up to date does not change what it will hold later. */
  lemma RefillKeepsLevel(c: Config, buckets: map<string, Bucket>, key: string, now: real, t: real)
    requires c.Valid() && Sound(c, buckets, now) && now <= t
    ensures var b := Current(c, buckets, key, now);
            && b.updated == now && b.tokens == Level(c, buckets, key, now) && 0.0 <= b.tokens <= c.Fill()
            && Min(c.Fill(), b.tokens + c.Earned(t - now)) == Level(c, buckets, key, t)
  {
    EarnedAdds(c, t - now, 0.0);
    if key in buckets {
      var old_ := buckets[key];
      EarnedAdds(c, now - old_.updated, t - now);
      assert (now - old_.updated) + (t - now) == t - old_.updated;
      EarnedAdds(c, now - old_.updated, 0.0);
    }
  }

  /** What one request does to the level of any key k. */
  lemma HitLevels(c: Config, l: Limiter, key: string, now: real, k: string, t: real)
    requires c.Valid() && Sound(c, l.buckets, now) && now <= t
    ensures var (after, d) := Hit(c, l, key, now);
            && Sound(c, after.buckets, now)
            && (k != key || d != Admit ==> Level(c, after.buckets, k, t) == Level(c, l.buckets, k, t))
            && (k == key && d == Admit ==> Level(c, after.buckets, k, now) == Level(c, l.buckets, k, now) - 1.0)
            && (!Overflows(c, l, key, now) ==> (d == Admit <==> Level(c, l.buckets, key, now) >= 1.0))
  {
    var cleaned := Cleanup(c, l, now);
    CleanupKeepsLevels(c, l, now, k, t);
    CleanupKeepsLevels(c, l, now, k, now);
    CleanupKeepsLevels(c, l, now, key, now);
    RefillKeepsLevel(c, cleaned.buckets, key, now, t);
    RefillKeepsLevel(c, cleaned.buckets, key, now, now);
    EarnedAdds(c, 0.0, 0.0);
  }

  lemma LevelGrowth(c: Config, buckets: map<string, Bucket>, key: string, e: real, t: real)
    requires c.Valid() && Sound(c, buckets, e) && e <= t
    ensures 0.0 <= Level(c, buckets, key, e) <= c.Fill()
    ensures Level(c, buckets, key, e) <= Level(c, buckets, key, t) <= Level(c, buckets, key, e) + c.Earned(t - e)
  {
    EarnedAdds(c, t - e, 0.0);
    if key in buckets {
      var b := buckets[key];
      EarnedAdds(c, e - b.updated, t - e);
      assert (e - b.updated) + (t - e) == t - b.updated;
    }
  }

  // ----- runs

  datatype Request = Request(key: string, at: real)

  /** A monotone clock, running from time start. */
  ghost predicate Monotone(reqs: seq<Request>, start: real) {
    && (forall i | 0 <= i < |reqs| :: start <= reqs[i].at)
    && (forall i, j | 0 <= i < j < |reqs| :: reqs[i].at <= reqs[j].at)
  }

  ghost function End(reqs: seq<Request>, start: real): real {
    if reqs == [] then start else reqs[|reqs| - 1].at
  }

  ghost function After(c: Config, l: Limiter, reqs: seq<Request>): Limiter
    requires c.Valid()
  {
    if reqs == [] then l
    else
      var r := reqs[|reqs| - 1];
      Hit(c, After(c, l, reqs[..|reqs| - 1]), r.key, r.at).0
  }

  ghost function Decisions(c: Config, l: Limiter, reqs: seq<Request>): (ds: seq<Decision>)
    requires c.Valid()
    ensures |ds| == |reqs|
  {
    if reqs == [] then []
    else
      var init, r := reqs[..|reqs| - 1], reqs[|reqs| - 1];
      Decisions(c, l, init) + [Hit(c, After(c, l, init), r.key, r.at).1]
  }

  /** How many requests of key k are admitted. */
  ghost function Admissions(c: Config, l: Limiter, reqs: seq<Request>, k: string): nat
    requires c.Valid()
  {
    if reqs == [] then 0
    else
      var init, r := reqs[..|reqs| - 1], reqs[|reqs| - 1];
      Admissions(c, l, init, k) + if r.key == k && Hit(c, After(c, l, init), r.key, r.at).1 == Admit then 1 else 0
  }

  lemma EarnedInTurn(c: Config, s: real, e: real, t: real)
    requires c.Valid()
    ensures c.Earned(e - s) + c.Earned(t - e) == c.Earned(t - s)
  {
    EarnedAdds(c, e - s, t - e);
    assert (e - s) + (t - e) == t - s;
  }

  /** One request takes at most what the level of k has grown by and held. */
  lemma ConservedByHit(c: Config, l: Limiter, key: string, now: real, k: string, e: real)
    requires c.Valid() && Sound(c, l.buckets, e) && e <= now
    ensures var (after, d) := Hit(c, l, key, now);
            && Sound(c, after.buckets, now)
            && (if key == k && d == Admit then 1.0 else 0.0) + Level(c, after.buckets, k, now)
               <= Level(c, l.buckets, k, e) + c.Earned(now - e)
  {
    LevelGrowth(c, l.buckets, k, e, now);
    HitLevels(c, l, key, now, k, now);
  }

  lemma MonotoneInit(reqs: seq<Request>, start: real)
    requires Monotone(reqs, start) && reqs != []
    ensures var (init, r) := (reqs[..|reqs| - 1], reqs[|reqs| - 1]);
            Monotone(init, start) && start <= End(init, start) <= r.at == End(reqs, start)
  {
  }

  /** The books of k, kept since `start` and up to e, with one request more. */
  lemma ConservedSoFar(c: Config, l: Limiter, key: string, now: real, k: string, start: real, e: real,
                       admitted: nat, initial: real)
    requires c.Valid() && Sound(c, l.buckets, e) && e <= now
    requires admitted as real + Level(c, l.buckets, k, e) <= initial + c.Earned(e - start)
    ensures var (after, d) := Hit(c, l, key, now);
            && Sound(c, after.buckets, now)
            && (admitted + (if key == k && d == Admit then 1 else 0)) as real + Level(c, after.buckets, k, now)
               <= initial + c.Earned(now - start)
  {
    ConservedByHit(c, l, key, now, k, e);
    EarnedInTurn(c, start, e, now);
  }

  /** Nobody has been admitted more often than the initial level and the tokens earned since allow. */
  ghost predicate Conserved(c: Config, l: Limiter, reqs: seq<Request>, k: string, start: real)
    requires c.Valid()
  {
    var end := End(reqs, start);
    && Sound(c, After(c, l, reqs).buckets, end)
    && Admissions(c, l, reqs, k) as real + Level(c, After(c, l, reqs).buckets, k, end)
       <= Level(c, l.buckets, k, start) + c.Earned(end - start)
  }

  lemma OneMoreConserved(c: Config, l: Limiter, reqs: seq<Request>, k: string, start: real)
    requires c.Valid() && reqs != [] && Monotone(reqs, start)
    requires Conserved(c, l, reqs[..|reqs| - 1], k, start)
    ensures Conserved(c, l, reqs, k, start)
  {
    var init, r := reqs[..|reqs| - 1], reqs[|reqs| - 1];
    MonotoneInit(reqs, start);
    ConservedSoFar(c, After(c, l, init), r.key, r.at, k, start, End(init, start), Admissions(c, l, init, k),
                   Level(c, l.buckets, k, start));
  }

  lemma {:induction false} TokensAreConserved(c: Config, l: Limiter, reqs: seq<Request>, k: string, start: real)
    requires c.Valid() && Sound(c, l.buckets, start) && Monotone(reqs, start)
    ensures Conserved(c, l, reqs, k, start)
  {
    if reqs == [] {
      EarnedAdds(c, 0.0, 0.0);
    } else {
      MonotoneInit(reqs, start);
      TokensAreConserved(c, l, reqs[..|reqs| - 1], k, start);
      OneMoreConserved(c, l, reqs, k, start);
    }
  }

  lemma StretchBound(c: Config, l: Limiter, stretch: seq<Request>, k: string)
    requires c.Valid() && stretch != []
    requires Sound(c, l.buckets, stretch[0].at) && Monotone(stretch, stretch[0].at)
    ensures Admissions(c, l, stretch, k) as real <= Allowance(c, stretch[|stretch| - 1].at - stretch[0].at)
  {
    var first, last := stretch[0].at, stretch[|stretch| - 1].at;
    TokensAreConserved(c, l, stretch, k, first);
    LevelGrowth(c, l.buckets, k, first, first);
    LevelGrowth(c, After(c, l, stretch).buckets, k, last, last);
    BoundArithmetic(c, last - first);
  }

  /** limit * (1 + T / window). */
  function Allowance(c: Config, T: real): real
    requires c.Valid()
  {
    c.Fill() * (1.0 + T / c.window)
  }

  /**
   * In any stretch of any run - evictions and a full table included - a key is admitted at most
   * limit * (1 + T / window) times, T being the time from the first to the last request of the stretch.
   */
  lemma ThroughputBound(c: Config, reqs: seq<Request>, i: nat, j: nat, k: string, start: real)
    requires c.Valid() && Monotone(reqs, start) && i < j <= |reqs|
    ensures var stretch := reqs[i..j];
            var T := reqs[j - 1].at - reqs[i].at;
            Admissions(c, After(c, Limiter(map[], start), reqs[..i]), stretch, k) as real <= Allowance(c, T)
  {
    var l := After(c, Limiter(map[], start), reqs[..i]);
    SoundBefore(c, reqs, i, start);
    StretchIsMonotone(reqs, i, j, start);
    StretchBound(c, l, reqs[i..j], k);
  }

  lemma SoundBefore(c: Config, reqs: seq<Request>, i: nat, start: real)
    requires c.Valid() && Monotone(reqs, start) && i < |reqs|
    ensures Sound(c, After(c, Limiter(map[], start), reqs[..i]).buckets, reqs[i].at)
  {
    TokensAreConserved(c, Limiter(map[], start), reqs[..i], "", start);
    assert End(reqs[..i], start) <= reqs[i].at;
  }

  lemma StretchIsMonotone(reqs: seq<Request>, i: nat, j: nat, start: real)
    requires Monotone(reqs, start) && i < j <= |reqs|
    ensures Monotone(reqs[i..j], reqs[i].at)
    ensures reqs[i..j][0] == reqs[i] && reqs[i..j][|reqs[i..j]| - 1] == reqs[j - 1]
  {
  }

  lemma BoundArithmetic(c: Config, T: real)
    requires c.Valid()
    ensures c.Fill() + c.Earned(T) == Allowance(c, T)
  {
    assert T * (c.Fill() / c.window) == c.Fill() * (T / c.window);
  }

  // ----- eviction is invisible

  ghost predicate RunOverflows(c: Config, l: Limiter, reqs: seq<Request>)
    requires c.Valid()
  {
    exists i :: 0 <= i < |reqs| && OverflowsAt(c, l, reqs, i)
  }

  ghost predicate OverflowsAt(c: Config, l: Limiter, reqs: seq<Request>, i: nat)
    requires c.Valid() && i < |reqs|
  {
    Overflows(c, After(c, l, reqs[..i]), reqs[i].key, reqs[i].at)
  }

  ghost function ReferenceAfter(c: Config, buckets: map<string, Bucket>, reqs: seq<Request>): map<string, Bucket>
    requires c.Valid()
  {
    if reqs == [] then buckets
    else
      var r := reqs[|reqs| - 1];
      ReferenceHit(c, ReferenceAfter(c, buckets, reqs[..|reqs| - 1]), r.key, r.at).0
  }

  ghost function ReferenceDecisions(c: Config, buckets: map<string, Bucket>, reqs: seq<Request>): (ds: seq<Decision>)
    requires c.Valid()
    ensures |ds| == |reqs|
  {
    if reqs == [] then []
    else
      var init, r := reqs[..|reqs| - 1], reqs[|reqs| - 1];
      ReferenceDecisions(c, buckets, init) + [ReferenceHit(c, ReferenceAfter(c, buckets, init), r.key, r.at).1]
  }

  /** Both limiters know the same level of every key from now on. */
  ghost predicate Agree(c: Config, l: map<string, Bucket>, reference: map<string, Bucket>, now: real)
    requires c.Valid()
  {
    && Sound(c, l, now) && Sound(c, reference, now)
    && forall key, t | now <= t :: Level(c, l, key, t) == Level(c, reference, key, t)
  }

  lemma HitKeepsAgreement(c: Config, l: Limiter, reference: map<string, Bucket>, key: string, now: real)
    requires c.Valid() && Agree(c, l.buckets, reference, now)
    ensures !Overflows(c, l, key, now) ==>
              && Hit(c, l, key, now).1 == ReferenceHit(c, reference, key, now).1
              && Agree(c, Hit(c, l, key, now).0.buckets, ReferenceHit(c, reference, key, now).0, now)
    ensures Overflows(c, l, key, now) ==> Hit(c, l, key, now).1 != ReferenceHit(c, reference, key, now).1
  {
    var cleaned := Cleanup(c, l, now);
    CleanupKeepsLevels(c, l, now, key, now);
    RefillKeepsLevel(c, cleaned.buckets, key, now, now);
    RefillKeepsLevel(c, reference, key, now, now);
    if !Overflows(c, l, key, now) {
      forall k, t | now <= t
        ensures Level(c, Hit(c, l, key, now).0.buckets, k, t) == Level(c, ReferenceHit(c, reference, key, now).0, k, t)
      {
        CleanupKeepsLevels(c, l, now, k, t);
      }
    }
  }

  /**
   * On every run from an empty table, evicting idle buckets changes no decision and no Retry-After,
   * compared with a limiter that keeps all buckets forever, if and only if no request finds the table full.
   */
  lemma {:induction false} EvictionIsInvisible(c: Config, reqs: seq<Request>, start: real)
    requires c.Valid() && Monotone(reqs, start)
    ensures var l := Limiter(map[], start);
            && (Decisions(c, l, reqs) == ReferenceDecisions(c, map[], reqs) <==> !RunOverflows(c, l, reqs))
            && (!RunOverflows(c, l, reqs) ==>
                 Agree(c, After(c, l, reqs).buckets, ReferenceAfter(c, map[], reqs), End(reqs, start)))
  {
    var l := Limiter(map[], start);
    if reqs != [] {
      var n := |reqs| - 1;
      var init, r := reqs[..n], reqs[n];
      EvictionIsInvisible(c, init, start);
      OverflowsAppend(c, l, reqs);
      var ds, rs := Decisions(c, l, reqs), ReferenceDecisions(c, map[], reqs);
      assert ds[..n] == Decisions(c, l, init) && rs[..n] == ReferenceDecisions(c, map[], init);
      if !RunOverflows(c, l, init) {
        assert Agree(c, After(c, l, init).buckets, ReferenceAfter(c, map[], init), r.at);
        HitKeepsAgreement(c, After(c, l, init), ReferenceAfter(c, map[], init), r.key, r.at);
      }
    }
  }

  lemma OverflowsAppend(c: Config, l: Limiter, reqs: seq<Request>)
    requires c.Valid() && reqs != []
    ensures var n := |reqs| - 1;
            RunOverflows(c, l, reqs) <==> RunOverflows(c, l, reqs[..n]) || OverflowsAt(c, l, reqs, n)
  {
    var n := |reqs| - 1;
    forall i: nat | i < n ensures OverflowsAt(c, l, reqs, i) == OverflowsAt(c, l, reqs[..n], i) {
      assert reqs[..n][..i] == reqs[..i];
    }
    if RunOverflows(c, l, reqs) && !OverflowsAt(c, l, reqs, n) {
      var i :| 0 <= i < |reqs| && OverflowsAt(c, l, reqs, i);
      assert OverflowsAt(c, l, reqs[..n], i);
    }
  }

  // ----- Retry-After

  lemma CeilIsLeast(x: real, m: int)
    ensures m >= Ceil(x) <==> m as real >= x
  {
  }

  /** Requests of other keys, and refused requests of key k, leave the level of k alone. */
  lemma {:induction false} LevelWithoutAdmissions(c: Config, l: Limiter, reqs: seq<Request>, k: string, start: real, t: real)
    requires c.Valid() && Sound(c, l.buckets, start) && Monotone(reqs, start) && End(reqs, start) <= t
    requires Admissions(c, l, reqs, k) == 0
    ensures Level(c, After(c, l, reqs).buckets, k, t) == Level(c, l.buckets, k, t)
    ensures Sound(c, After(c, l, reqs).buckets, t)
  {
    if reqs != [] {
      var init, r := reqs[..|reqs| - 1], reqs[|reqs| - 1];
      LevelWithoutAdmissions(c, l, init, k, start, t);
      TokensAreConserved(c, l, init, k, start);
      assert Sound(c, After(c, l, init).buckets, r.at);
      HitLevels(c, After(c, l, init), r.key, r.at, k, t);
    }
  }

  /** m seconds later there is a token in the bucket, or not. */
  lemma LevelAfterWaiting(c: Config, buckets: map<string, Bucket>, key: string, b: Bucket, now: real, m: nat)
    requires c.Valid() && key in buckets && buckets[key] == b && b.updated == now
    ensures Level(c, buckets, key, now + m as real) >= 1.0 <==> m >= Ceil((1.0 - b.tokens) / (c.Fill() / c.window))
  {
    assert (now + m as real) - b.updated == m as real;
    WaitArithmetic(c, b.tokens, m as real);
    CeilIsLeast((1.0 - b.tokens) / (c.Fill() / c.window), m);
  }

  /** A refusal for lack of tokens leaves an up-to-date bucket behind, short of one token. */
  lemma RefusedBucket(c: Config, l: Limiter, key: string, now: real) returns (b: Bucket)
    requires c.Valid() && Sound(c, l.buckets, now) && !Overflows(c, l, key, now)
    requires Hit(c, l, key, now).1.Refuse?
    ensures var (refused, d) := Hit(c, l, key, now);
            && key in refused.buckets && b == refused.buckets[key] && Sound(c, refused.buckets, now)
            && b.updated == now && b.tokens < 1.0
            && d.retryAfter == Ceil((1.0 - b.tokens) / (c.Fill() / c.window))
  {
    HitLevels(c, l, key, now, key, now);
    CleanupKeepsLevels(c, l, now, key, now);
    RefillKeepsLevel(c, Cleanup(c, l, now).buckets, key, now, now);
    b := Hit(c, l, key, now).0.buckets[key];
  }

  /** A client refused for lack of tokens that finds room when it asks again is admitted exactly from the returned time on. */
  lemma TokensAreBackInTime(c: Config, l: Limiter, key: string, now: real, reqs: seq<Request>, m: nat)
    requires c.Valid() && Sound(c, l.buckets, now) && !Overflows(c, l, key, now)
    requires Hit(c, l, key, now).1.Refuse?
    requires var refused := Hit(c, l, key, now).0;
             && Monotone(reqs, now) && End(reqs, now) <= now + m as real
             && Admissions(c, refused, reqs, key) == 0
             && !Overflows(c, After(c, refused, reqs), key, now + m as real)
    ensures var (refused, d) := Hit(c, l, key, now);
            Hit(c, After(c, refused, reqs), key, now + m as real).1 == Admit <==> m >= d.retryAfter
  {
    var refused := Hit(c, l, key, now).0;
    var t := now + m as real;
    var b := RefusedBucket(c, l, key, now);
    LevelAfterWaiting(c, refused.buckets, key, b, now, m);
    LevelWithoutAdmissions(c, refused, reqs, key, now, t);
    HitLevels(c, After(c, refused, reqs), key, t, key, t);
  }

  /** A client refused by a full table has all its tokens; it is admitted as soon as it finds room. */
  lemma RoomIsAllItNeeds(c: Config, l: Limiter, key: string, now: real, reqs: seq<Request>, t: real)
    requires c.Valid() && Sound(c, l.buckets, now) && Overflows(c, l, key, now)
    requires var refused := Hit(c, l, key, now).0;
             && Monotone(reqs, now) && End(reqs, now) <= t
             && Admissions(c, refused, reqs, key) == 0
             && !Overflows(c, After(c, refused, reqs), key, t)
    ensures Hit(c, After(c, Hit(c, l, key, now).0, reqs), key, t).1 == Admit
  {
    var refused := Hit(c, l, key, now).0;
    CleanupKeepsLevels(c, l, now, key, now);
    assert Level(c, refused.buckets, key, t) == c.Fill();
    LevelWithoutAdmissions(c, refused, reqs, key, now, t);
    HitLevels(c, After(c, refused, reqs), key, t, key, t);
  }

  /**
   * When exactly a refused client gets in: asking again m seconds later, with no request of its key admitted
   * in between and whatever else was asked, it is admitted if and only if it then finds room in the table
   * and, unless the table was full before, m is at least the returned Retry-After.
   */
  lemma RetryAfterIsExact(c: Config, l: Limiter, key: string, now: real, reqs: seq<Request>, m: nat)
    requires c.Valid() && Sound(c, l.buckets, now) && Hit(c, l, key, now).1.Refuse?
    requires Monotone(reqs, now) && End(reqs, now) <= now + m as real
    requires Admissions(c, Hit(c, l, key, now).0, reqs, key) == 0
    ensures var (refused, d) := Hit(c, l, key, now);
            var later := After(c, refused, reqs);
            Hit(c, later, key, now + m as real).1 == Admit <==>
              !Overflows(c, later, key, now + m as real) && (Overflows(c, l, key, now) || m >= d.retryAfter)
  {
    if !Overflows(c, After(c, Hit(c, l, key, now).0, reqs), key, now + m as real) {
      if Overflows(c, l, key, now) {
        RoomIsAllItNeeds(c, l, key, now, reqs, now + m as real);
      } else {
        TokensAreBackInTime(c, l, key, now, reqs, m);
      }
    }
  }

  /** A bucket used at time now or later survives everything that happens within a window. */
  lemma {:induction false} BucketsStay(c: Config, l: Limiter, reqs: seq<Request>, key: string, now: real)
    requires c.Valid() && Sound(c, l.buckets, now) && key in l.buckets && now <= l.buckets[key].updated
    requires Monotone(reqs, now) && End(reqs, now) < now + c.window
    ensures var later := After(c, l, reqs);
            key in later.buckets && now <= later.buckets[key].updated
  {
    if reqs != [] {
      MonotoneInit(reqs, now);
      BucketsStay(c, l, reqs[..|reqs| - 1], key, now);
    }
  }

  /** Within the window the wait for tokens is exact without exception: the client's own bucket keeps its place. */
  lemma RetryAfterIsExactWithinTheWindow(c: Config, l: Limiter, key: string, now: real, reqs: seq<Request>, m: nat)
    requires c.Valid() && Sound(c, l.buckets, now) && Hit(c, l, key, now).1.Refuse? && !Overflows(c, l, key, now)
    requires Monotone(reqs, now) && End(reqs, now) <= now + m as real && m as real < c.window
    requires Admissions(c, Hit(c, l, key, now).0, reqs, key) == 0
    ensures var (refused, d) := Hit(c, l, key, now);
            Hit(c, After(c, refused, reqs), key, now + m as real).1 == Admit <==> m >= d.retryAfter
  {
    var refused := Hit(c, l, key, now).0;
    var b := RefusedBucket(c, l, key, now);
    BucketsStay(c, refused, reqs, key, now);
    assert key in Cleanup(c, After(c, refused, reqs), now + m as real).buckets;
    RetryAfterIsExact(c, l, key, now, reqs, m);
  }

  lemma WaitArithmetic(c: Config, tokens: real, wait: real)
    requires c.Valid()
    ensures tokens + c.Earned(wait) >= 1.0 <==> wait >= (1.0 - tokens) / (c.Fill() / c.window)
  {
    var rate := c.Fill() / c.window;
    assert rate > 0.0;
    assert (1.0 - tokens) / rate * rate == 1.0 - tokens;
    if wait >= (1.0 - tokens) / rate {
      assert (wait - (1.0 - tokens) / rate) * rate >= 0.0;
    } else {
      assert ((1.0 - tokens) / rate - wait) * rate > 0.0;
    }
  }

  // ----- the table

  lemma {:induction false} SubsetSize<T>(a: set<T>, b: set<T>)
    requires a <= b
    ensures |a| <= |b|
  {
    if a != {} {
      var x :| x in a;
      SubsetSize(a - {x}, b - {x});
    }
  }

  /** The table never outgrows its bound, whoever asks. */
  lemma {:induction false} TableIsBounded(c: Config, l: Limiter, reqs: seq<Request>)
    requires c.Valid() && |l.buckets| <= 10_000
    ensures |After(c, l, reqs).buckets| <= 10_000
  {
    if reqs != [] {
      var init, r := reqs[..|reqs| - 1], reqs[|reqs| - 1];
      TableIsBounded(c, l, init);
      var before := After(c, l, init);
      var cleaned := Cleanup(c, before, r.at);
      SubsetSize(cleaned.buckets.Keys, before.buckets.Keys);
      assert |cleaned.buckets| == |cleaned.buckets.Keys| && |before.buckets| == |before.buckets.Keys|;
      var after := Hit(c, before, r.key, r.at).0;
      if r.key in cleaned.buckets {
        assert after.buckets.Keys == cleaned.buckets.Keys;
        assert |after.buckets| == |after.buckets.Keys|;
      }
    }
  }

  // ----- a full table

  /** Every bucket was used less than a window before the last cleanup, or after it. */
  ghost predicate Swept(c: Config, l: Limiter) {
    forall key | key in l.buckets :: l.lastCleanup - l.buckets[key].updated < c.window
  }

  /** Each bucket was last brought up to date by a request of its key. */
  ghost predicate Requested(buckets: map<string, Bucket>, reqs: seq<Request>) {
    forall key | key in buckets :: Request(key, buckets[key].updated) in reqs
  }

  lemma HitKeepsSwept(c: Config, l: Limiter, key: string, now: real)
    requires c.Valid() && Swept(c, l) && Sound(c, l.buckets, now) && l.lastCleanup <= now
    ensures var after := Hit(c, l, key, now).0;
            && Swept(c, after) && after.lastCleanup <= now
            && forall k | k in after.buckets ::
                 if k in l.buckets && k != key then after.buckets[k].updated == l.buckets[k].updated
                 else k == key && (after.buckets[k].updated == now
                                   || (k in l.buckets && after.buckets[k].updated == l.buckets[k].updated))
  {
  }

  lemma RequestedAppend(buckets: map<string, Bucket>, later: map<string, Bucket>, reqs: seq<Request>, r: Request)
    requires Requested(buckets, reqs)
    requires forall k | k in later ::
               if k in buckets && k != r.key then later[k].updated == buckets[k].updated
               else k == r.key && (later[k].updated == r.at || (k in buckets && later[k].updated == buckets[k].updated))
    ensures Requested(later, reqs + [r])
  {
    assert (reqs + [r])[|reqs|] == r;
    forall k | k in later ensures Request(k, later[k].updated) in reqs + [r] {
      assert k in buckets ==> Request(k, buckets[k].updated) in reqs;
    }
  }

  lemma {:induction false} TablesAreSwept(c: Config, reqs: seq<Request>, start: real)
    requires c.Valid() && Monotone(reqs, start)
    ensures var l := After(c, Limiter(map[], start), reqs);
            Swept(c, l) && Requested(l.buckets, reqs) && l.lastCleanup <= End(reqs, start)
  {
    if reqs != [] {
      var init, r := reqs[..|reqs| - 1], reqs[|reqs| - 1];
      TablesAreSwept(c, init, start);
      TokensAreConserved(c, Limiter(map[], start), init, "", start);
      var before := After(c, Limiter(map[], start), init);
      assert reqs == init + [r];
      assert Sound(c, before.buckets, r.at);
      HitKeepsSwept(c, before, r.key, r.at);
      RequestedAppend(before.buckets, Hit(c, before, r.key, r.at).0.buckets, init, r);
    }
  }

  /** The keys other than k that have asked since. */
  function OtherKeys(reqs: seq<Request>, k: string, since: real): set<string> {
    set r | r in reqs && r.key != k && since < r.at :: r.key
  }

  /** A request finds the table full only if ten thousand other keys have asked within the last two windows. */
  lemma FullTableMeansTraffic(c: Config, reqs: seq<Request>, start: real, key: string, now: real)
    requires c.Valid() && Monotone(reqs, start) && End(reqs, start) <= now
    requires Overflows(c, After(c, Limiter(map[], start), reqs), key, now)
    ensures |OtherKeys(reqs, key, now - 2.0 * c.window)| >= 10_000
  {
    TablesAreSwept(c, reqs, start);
    var l := After(c, Limiter(map[], start), reqs);
    var cleaned := Cleanup(c, l, now);
    var others := OtherKeys(reqs, key, now - 2.0 * c.window);
    forall k | k in cleaned.buckets ensures k in others {
      var r := Request(k, l.buckets[k].updated);
      assert r in reqs && r.key != key && now - 2.0 * c.window < r.at;
    }
    SubsetSize(cleaned.buckets.Keys, others);
    assert |cleaned.buckets| == |cleaned.buckets.Keys|;
  }

  /** When nobody else asks meanwhile, the Retry-After of a full table is long enough. */
  lemma QuietWaitIsEnough(c: Config, l: Limiter, key: string, now: real, m: nat)
    requires c.Valid() && Sound(c, l.buckets, now) && l.lastCleanup <= now
    requires Overflows(c, l, key, now) && m >= Hit(c, l, key, now).1.retryAfter
    ensures Hit(c, Hit(c, l, key, now).0, key, now + m as real).1 == Admit
  {
    CeilIsLeast(c.window, m);
    var refused := Hit(c, l, key, now).0;
    var cleaned := Cleanup(c, refused, now + m as real);
    assert cleaned.buckets == map[];
  }

  // A client that obeys the Retry-After of a full table and is refused again all the same.

  function Xs(n: nat): string {
    seq(n, _ => 'x')
  }

  /** n keys ask for the first time, half a minute after the start. */
  function Flood(n: nat): seq<Request> {
    if n == 0 then [] else Flood(n - 1) + [Request(Xs(n - 1), 30.0)]
  }

  lemma {:induction false} FloodFills(c: Config, n: nat)
    requires c.Valid() && c.window == 60.0 && n <= TABLE_SIZE
    ensures var l := After(c, Limiter(map[], 0.0), Flood(n));
            && l.lastCleanup == 0.0 && |l.buckets| == n && (n > 0 ==> Xs(0) in l.buckets)
            && forall key | key in l.buckets :: |key| < n && l.buckets[key].updated == 30.0
  {
    if n > 0 {
      FloodFills(c, n - 1);
      var before := After(c, Limiter(map[], 0.0), Flood(n - 1));
      assert Flood(n)[..|Flood(n)| - 1] == Flood(n - 1);
      assert |Xs(n - 1)| == n - 1 && Xs(n - 1) !in before.buckets;
      assert Cleanup(c, before, 30.0) == before;
    }
  }

  /**
   * Refused by a full table at second 30 and told to wait 60 seconds, the client is refused again at
   * second 90, because one request at second 60 has put the next cleanup off.
   */
  lemma ObedientClientRefused(limit: int)
    requires limit > 0
    ensures var (c, key) := (Config(limit, 60.0), Xs(TABLE_SIZE));
            var (refused, d) := Hit(c, After(c, Limiter(map[], 0.0), Flood(TABLE_SIZE)), key, 30.0);
            && d == Refuse(60)
            && Hit(c, Hit(c, refused, Xs(0), 60.0).0, key, 90.0).1 == Refuse(60)
  {
    var c, key := Config(limit, 60.0), Xs(TABLE_SIZE);
    var l := After(c, Limiter(map[], 0.0), Flood(TABLE_SIZE));
    FloodFills(c, TABLE_SIZE);
    assert |key| == TABLE_SIZE && key !in l.buckets;
    assert Cleanup(c, l, 30.0) == l;
    CeilIsLeast(60.0, 60);
    CeilIsLeast(60.0, 59);
    assert Hit(c, l, key, 30.0) == (l, Refuse(60));
    assert Cleanup(c, l, 60.0).buckets == l.buckets;
    var later := Hit(c, l, Xs(0), 60.0).0;
    assert later.buckets.Keys == l.buckets.Keys && later.lastCleanup == 60.0;
    assert |later.buckets| == |later.buckets.Keys| == |l.buckets|;
    assert Cleanup(c, later, 90.0) == later;
  }

  // ----- one request, in numbers

  /** The buckets a request at this time finds: those not used for a window are gone if no cleanup was made for as long. */
  function Kept(c: Config, l: Limiter, now: real): map<string, Bucket> {
    map key | key in l.buckets && (l.lastCleanup + c.window <= now ==> now < l.buckets[key].updated + c.window) :: l.buckets[key]
  }

  /** The tokens a request finds: all of them for a new key, else what was left and what has come since, at most all. */
  function TokensFor(c: Config, kept: map<string, Bucket>, key: string, now: real): real
    requires c.Valid()
  {
    if key !in kept then c.limit as real
    else if now <= kept[key].updated then kept[key].tokens
    else
      var full, more := c.limit as real, kept[key].tokens + (now - kept[key].updated) * (c.limit as real / c.window);
      if more <= full then more else full
  }

  lemma KeptIsCleaned(c: Config, l: Limiter, now: real)
    ensures Cleanup(c, l, now) == Limiter(Kept(c, l, now), if l.lastCleanup + c.window <= now then now else l.lastCleanup)
  {
    assert l.buckets == map key | key in l.buckets :: l.buckets[key];
  }

  lemma CurrentIs(c: Config, kept: map<string, Bucket>, key: string, now: real)
    requires c.Valid()
    ensures Current(c, kept, key, now)
            == Bucket(TokensFor(c, kept, key, now), if key in kept && now <= kept[key].updated then kept[key].updated else now)
  {
    if key in kept && now > kept[key].updated {
      assert c.Earned(now - kept[key].updated) == (now - kept[key].updated) * (c.limit as real / c.window);
    }
  }

  lemma TakeIs(c: Config, b: Bucket)
    requires c.Valid()
    ensures var (after, d) := Take(c, b);
            && (d == Admit <==> b.tokens >= 1.0)
            && after == Bucket(if b.tokens >= 1.0 then b.tokens - 1.0 else b.tokens, b.updated)
            && (b.tokens < 1.0 ==>
                 d.Refuse?
                 && (d.retryAfter - 1) as real < (1.0 - b.tokens) / (c.limit as real / c.window) <= d.retryAfter as real)
  {
  }

  /**
   * A new key that finds ten thousand buckets is told to wait a window, rounded up. Anybody else is admitted
   * exactly with a whole token, which it then spends, and otherwise told the least number of seconds in which
   * the missing part of one comes.
   */
  lemma HitOutcome(c: Config, l: Limiter, key: string, now: real)
    requires c.Valid()
    ensures var kept := Kept(c, l, now);
            var (after, d) := Hit(c, l, key, now);
            && after.lastCleanup == (if l.lastCleanup + c.window <= now then now else l.lastCleanup)
            && (key !in kept && |kept| >= 10_000 ==>
                 after.buckets == kept && d.Refuse? && (d.retryAfter - 1) as real < c.window <= d.retryAfter as real)
            && (key in kept || |kept| < 10_000 ==>
                 var tokens := TokensFor(c, kept, key, now);
                 var at := if key in kept && now <= kept[key].updated then kept[key].updated else now;
                 && (d == Admit <==> tokens >= 1.0)
                 && after.buckets == kept[key := Bucket(if tokens >= 1.0 then tokens - 1.0 else tokens, at)]
                 && (tokens < 1.0 ==>
                      d.Refuse?
                      && (d.retryAfter - 1) as real < (1.0 - tokens) / (c.limit as real / c.window) <= d.retryAfter as real))
  {
    var kept := Kept(c, l, now);
    KeptIsCleaned(c, l, now);
    CurrentIs(c, kept, key, now);
    TakeIs(c, Current(c, kept, key, now));
  }

  // ----- the handler

  class RateLimiter {
    const config: Config
    var buckets: map<string, Bucket>
    var lastCleanup: real

    ghost function State(): Limiter
      reads this
    {
      Limiter(buckets, lastCleanup)
    }

    constructor (config: Config, now: real)
      requires config.Valid()
      ensures this.config == config && State() == Limiter(map[], now)
    {
      this.config, buckets, lastCleanup := config, map[], now;
    }

    /** Deletes the idle buckets, one key at a time. */
    method CleanUp(now: real)
      modifies this
      ensures State() == Cleanup(config, old(State()), now)
    {
      if now - lastCleanup >= config.window {
        var rest := buckets.Keys;
        ghost var all := buckets;
        while rest != {}
          invariant rest <= all.Keys && buckets.Keys <= all.Keys
          invariant forall key | key in buckets :: buckets[key] == all[key]
          invariant forall key | key in all ::
                      key in buckets <==> key in rest || now - all[key].updated < config.window
          decreases rest
        {
          var key :| key in rest;
          if now - buckets[key].updated >= config.window {
            buckets := buckets - {key};
          }
          rest := rest - {key};
        }
        lastCleanup := now;
      }
    }

    method Handle(key: string, now: real) returns (d: Decision)
      requires config.Valid()
      modifies this
      ensures (State(), d) == Hit(config, old(State()), key, now)
    {
      CleanUp(now);
      ghost var cleaned := buckets;
      if key !in buckets {
        if |buckets| >= TABLE_SIZE {
          return Refuse(Ceil(config.window));
        }
        buckets := buckets[key := Bucket(config.Fill(), now)];
      }
      var current := buckets[key];
      var elapsed := now - current.updated;
      if elapsed > 0.0 {
        current := Bucket(Min(config.Fill(), current.tokens + config.Earned(elapsed)), now);
        buckets := buckets[key := current];
      }
      assert buckets == cleaned[key := Current(config, cleaned, key, now)];
      if current.tokens < 1.0 {
        return Refuse(Ceil((1.0 - current.tokens) / (config.Fill() / config.window)));
      }
      buckets := buckets[key := current.(tokens := current.tokens - 1.0)];
      assert buckets == cleaned[key := current.(tokens := current.tokens - 1.0)];
      d := Admit;
    }
  }
}
