/** The per-client token bucket, over real-valued seconds and tokens. */
module TokenBucket {

  /** `Overflow` is the division by a zero refill rate, which no duration holds. */
  datatype Reply = Granted | RetryAfter(seconds: real) | Overflow

  datatype Bucket = Bucket(capacity: nat, tokens: real, refillPerSecond: real, lastRefill: real) {
    predicate Valid() {
      && 0.0 <= tokens <= capacity as real
      && 0.0 <= refillPerSecond
      && (refillPerSecond == 0.0 <==> capacity == 0)
    }
  }

  /** One take: the moment it happens and the tokens earned since the last. */
  datatype Take = Take(now: real, earned: real)

  function New(capacity: nat, now: real): Bucket {
    Bucket(capacity, capacity as real, capacity as real / 60.0, now)
  }

  /** Elapsed time never counts backwards. */
  function Elapsed(earlier: real, later: real): real {
    if later < earlier then 0.0 else later - earlier
  }

  function TakeAt(b: Bucket, now: real): Take {
    Take(now, Elapsed(b.lastRefill, now) * b.refillPerSecond)
  }

  function Capped(capacity: nat, tokens: real): real {
    if tokens < capacity as real then tokens else capacity as real
  }

  function Refilled(b: Bucket, t: Take): real {
    Capped(b.capacity, b.tokens + t.earned)
  }

  /** The bucket after one take. */
  function Next(b: Bucket, t: Take): Bucket {
    var tokens := Refilled(b, t);
    b.(tokens := if tokens >= 1.0 then tokens - 1.0 else tokens, lastRefill := t.now)
  }

  function Answer(b: Bucket, t: Take): Reply {
    var tokens := Refilled(b, t);
    if tokens >= 1.0 then Granted
    else if b.refillPerSecond == 0.0 then Overflow
    else RetryAfter((1.0 - tokens) / b.refillPerSecond)
  }

  class Limiter {
    const capacity: nat
    var tokens: real
    const refillPerSecond: real
    var lastRefill: real

    ghost function State(): Bucket
      reads this
    {
      Bucket(capacity, tokens, refillPerSecond, lastRefill)
    }

    constructor (capacity: nat, now: real)
      ensures State() == New(capacity, now)
    {
      this.capacity := capacity;
      tokens := capacity as real;
      refillPerSecond := capacity as real / 60.0;
      lastRefill := now;
    }

    method TakeToken(now: real) returns (reply: Reply)
      modifies this
      ensures State() == Next(old(State()), TakeAt(old(State()), now))
      ensures reply == Answer(old(State()), TakeAt(old(State()), now))
    {
      var elapsed := if now < lastRefill then 0.0 else now - lastRefill;
      lastRefill := now;
      var refilled := tokens + elapsed * refillPerSecond;
      tokens := if refilled < capacity as real then refilled else capacity as real;
      if tokens >= 1.0 {
        tokens := tokens - 1.0;
        return Granted;
      }
      if refillPerSecond == 0.0 {
        return Overflow;
      }
      return RetryAfter((1.0 - tokens) / refillPerSecond);
    }
  }

  // ----- runs

  /** Each take earns for the time since the one before it, and time does not
      run backwards. */
  predicate Run(b: Bucket, takes: seq<Take>)
    decreases |takes|
  {
    takes != [] ==>
      && b.lastRefill <= takes[0].now
      && takes[0] == TakeAt(b, takes[0].now)
      && Run(Next(b, takes[0]), takes[1..])
  }

  function After(b: Bucket, takes: seq<Take>): Bucket
    decreases |takes|
  {
    if takes == [] then b else After(Next(b, takes[0]), takes[1..])
  }

  /** How many of the takes are granted. */
  function Grants(b: Bucket, takes: seq<Take>): nat
    decreases |takes|
  {
    if takes == [] then 0
    else (if Answer(b, takes[0]).Granted? then 1 else 0) + Grants(Next(b, takes[0]), takes[1..])
  }

  function Earned(takes: seq<Take>): real {
    if takes == [] then 0.0 else takes[0].earned + Earned(takes[1..])
  }

  lemma ScaleNonnegative(d: real, r: real)
    requires d >= 0.0 && r >= 0.0
    ensures d * r >= 0.0
  {
  }

  lemma ScaleMonotone(x: real, y: real, r: real)
    requires x <= y && r >= 0.0
    ensures x * r <= y * r
  {
    ScaleNonnegative(y - x, r);
  }

  lemma Distribute(t: real, s: real, e: real, r: real)
    ensures (s - t) * r + (e - s) * r == (e - t) * r
  {
  }

  lemma NextValid(b: Bucket, t: Take)
    requires b.Valid() && t.earned >= 0.0
    ensures Next(b, t).Valid() && 0.0 <= Refilled(b, t) <= b.capacity as real
  {
  }

  lemma EarnsNonnegative(b: Bucket, now: real)
    requires b.Valid()
    ensures TakeAt(b, now).earned >= 0.0
  {
    ScaleNonnegative(Elapsed(b.lastRefill, now), b.refillPerSecond);
  }

  /** Tokens stay between zero and the capacity through every run. */
  lemma {:induction false} TokensBounded(b: Bucket, takes: seq<Take>)
    requires b.Valid() && Run(b, takes)
    ensures After(b, takes).Valid()
    ensures After(b, takes).capacity == b.capacity && After(b, takes).refillPerSecond == b.refillPerSecond
    decreases |takes|
  {
    if takes == [] {
    } else {
      EarnsNonnegative(b, takes[0].now);
      NextValid(b, takes[0]);
      TokensBounded(Next(b, takes[0]), takes[1..]);
    }
  }

  /** Grants are paid for by the tokens at the first take and what is earned
      after it. */
  lemma {:induction false} GrantsPaidFor(b: Bucket, takes: seq<Take>)
    requires b.Valid() && takes != []
    requires forall i :: 0 <= i < |takes| ==> takes[i].earned >= 0.0
    ensures Grants(b, takes) as real <= Refilled(b, takes[0]) + Earned(takes[1..])
    decreases |takes|
  {
    NextValid(b, takes[0]);
    if |takes| > 1 {
      GrantsPaidFor(Next(b, takes[0]), takes[1..]);
    }
  }

  /** What the takes earned beyond the capacity, and lost. */
  function Spilled(b: Bucket, takes: seq<Take>): real
    decreases |takes|
  {
    if takes == [] then 0.0
    else
      var full := b.tokens + takes[0].earned;
      (if full > b.capacity as real then full - b.capacity as real else 0.0) + Spilled(Next(b, takes[0]), takes[1..])
  }

  /** Conservation: every token held or earned is granted, kept or spilled. */
  lemma {:induction false} TokensConserved(b: Bucket, takes: seq<Take>)
    ensures Grants(b, takes) as real + After(b, takes).tokens + Spilled(b, takes) == b.tokens + Earned(takes)
    decreases |takes|
  {
    if takes == [] {
    } else {
      TokensConserved(Next(b, takes[0]), takes[1..]);
    }
  }

  /** As many takes as there are tokens are all granted, however fast they come;
      so a full bucket grants its capacity in a row. */
  lemma {:induction false} HeldTokensAreGranted(b: Bucket, takes: seq<Take>)
    requires b.Valid() && Run(b, takes) && |takes| as real <= b.tokens
    ensures Grants(b, takes) == |takes|
    decreases |takes|
  {
    if takes == [] {
    } else {
      EarnsNonnegative(b, takes[0].now);
      NextValid(b, takes[0]);
      assert |takes[1..]| as real == |takes| as real - 1.0;
      HeldTokensAreGranted(Next(b, takes[0]), takes[1..]);
    }
  }

  lemma {:induction false} EarnedOverTime(b: Bucket, takes: seq<Take>)
    requires b.Valid() && takes != [] && Run(b, takes)
    ensures Earned(takes[1..]) == (takes[|takes| - 1].now - takes[0].now) * b.refillPerSecond
    ensures forall i :: 0 <= i < |takes| ==> takes[i].earned >= 0.0
    decreases |takes|
  {
    EarnsNonnegative(b, takes[0].now);
    NextValid(b, takes[0]);
    var rest := takes[1..];
    if rest == [] {
    } else {
      EarnedOverTime(Next(b, takes[0]), rest);
      Distribute(takes[0].now, rest[0].now, rest[|rest| - 1].now, b.refillPerSecond);
      assert Earned(rest) == rest[0].earned + Earned(rest[1..]);
      assert forall i :: 0 < i < |takes| ==> takes[i] == rest[i - 1];
    }
  }

  lemma {:induction false} EarnedWithin(b: Bucket, window: seq<Take>, width: real)
    requires b.Valid() && window != [] && Run(b, window)
    requires window[|window| - 1].now - window[0].now <= width
    ensures Earned(window[1..]) <= width * b.refillPerSecond
    ensures forall i :: 0 <= i < |window| ==> window[i].earned >= 0.0
  {
    EarnedOverTime(b, window);
    ScaleMonotone(window[|window| - 1].now - window[0].now, width, b.refillPerSecond);
  }

  lemma GrantsWithin(b: Bucket, window: seq<Take>, earned: real)
    requires b.Valid() && window != [] && Earned(window[1..]) <= earned
    requires forall i :: 0 <= i < |window| ==> window[i].earned >= 0.0
    ensures Grants(b, window) as real <= b.capacity as real + earned
  {
    GrantsPaidFor(b, window);
    NextValid(b, window[0]);
  }

  /** The rate bound: from any valid bucket, the takes inside a time window are
      granted at most capacity plus the window's refill. */
  lemma {:induction false} WindowBound(b: Bucket, window: seq<Take>, width: real)
    requires b.Valid() && Run(b, window) && width >= 0.0
    requires window != [] ==> window[|window| - 1].now - window[0].now <= width
    ensures Grants(b, window) as real <= b.capacity as real + width * b.refillPerSecond
  {
    if window == [] {
      ScaleNonnegative(width, b.refillPerSecond);
    } else {
      EarnedWithin(b, window, width);
      GrantsWithin(b, window, width * b.refillPerSecond);
    }
  }

  /** The bound holds at capacity / 60 per second after any history of a bucket
      made by the constructor. */
  lemma {:induction false} HistoryKeepsRate(capacity: nat, start: real, before: seq<Take>)
    requires Run(New(capacity, start), before)
    ensures var b := After(New(capacity, start), before);
      b.Valid() && b.capacity == capacity && b.refillPerSecond == capacity as real / 60.0
  {
    TokensBounded(New(capacity, start), before);
  }

  lemma ScalePositive(d: real, r: real)
    requires d > 0.0 && r > 0.0
    ensures d * r > 0.0
  {
  }

  lemma DivideBack(x: real, r: real)
    requires r > 0.0
    ensures x / r * r == x
  {
  }

  lemma WaitIsExact(tokens: real, r: real, d: real)
    requires r > 0.0 && tokens < 1.0
    ensures (1.0 - tokens) / r > 0.0
    ensures tokens + d * r >= 1.0 <==> d >= (1.0 - tokens) / r
  {
    var wait := (1.0 - tokens) / r;
    DivideBack(1.0 - tokens, r);
    Distribute(0.0, d, wait, r);
    if d >= wait {
      ScaleNonnegative(d - wait, r);
    } else {
      ScalePositive(wait - d, r);
    }
    if wait <= 0.0 {
      ScaleNonnegative(-wait, r);
    }
  }

  /** A refused caller who is next to try is granted from the advised moment on,
      and not before it. */
  lemma AdviceIsExact(b: Bucket, t: Take, later: real)
    requires b.Valid() && t.earned >= 0.0 && Answer(b, t).RetryAfter? && t.now <= later
    ensures Answer(b, t).seconds > 0.0
    ensures Answer(Next(b, t), TakeAt(Next(b, t), later)).Granted? <==> later >= t.now + Answer(b, t).seconds
  {
    var b' := Next(b, t);
    NextValid(b, t);
    WaitIsExact(b'.tokens, b.refillPerSecond, later - t.now);
    GrantedFrom(b', TakeAt(b', later));
  }

  lemma GrantedFrom(b: Bucket, t: Take)
    requires b.capacity >= 1
    ensures Answer(b, t).Granted? <==> b.tokens + t.earned >= 1.0
  {
  }

  /** The division overflows exactly for the bucket of capacity zero. */
  lemma OverflowIffZeroCapacity(b: Bucket, now: real)
    requires b.Valid()
    ensures Answer(b, TakeAt(b, now)).Overflow? <==> b.capacity == 0
  {
    EarnsNonnegative(b, now);
    NextValid(b, TakeAt(b, now));
  }
}
