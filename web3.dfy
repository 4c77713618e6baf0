/**
 * The rate-limited endpoint pool (web3/web3.py): each endpoint may be used
 * once per `delay`, and the pool hands out the first endpoint that is
 * usable now, or else waits for the one that becomes usable soonest.
 *
 * The wall clock is an integer `now` supplied by the caller; one scan of
 * the pool reads it once.  A blocking wait is modelled by the time at
 * which the chosen endpoint is used: the requested wait plus `overshoot`,
 * the amount by which sleeping ran late.
 */
module Web3Pool {
  import opened PyValues

  /*** Reference definitions over the waiting times of the endpoints ***/

  /** The first index whose waiting time is over (at most zero), if any. */
  function FirstReady(taus: seq<int>): (r: Option<nat>)
    ensures r.Some? ==> r.value < |taus|
  {
    if taus == [] then None
    else
      match FirstReady(taus[..|taus| - 1])
      case Some(k) => Some(k)
      case None => if taus[|taus| - 1] <= 0 then Some(|taus| - 1) else None
  }

  /** FirstReady finds a ready index with none before it, and finds none only when no index is ready. */
  lemma {:induction false} FirstReadyIsFirst(taus: seq<int>)
    ensures var r := FirstReady(taus);
            (r.Some? ==> taus[r.value] <= 0 && forall j :: 0 <= j < r.value ==> taus[j] > 0) &&
            (r.None? <==> forall j :: 0 <= j < |taus| ==> taus[j] > 0)
  {
    if taus != [] {
      var init := taus[..|taus| - 1];
      FirstReadyIsFirst(init);
      assert forall j :: 0 <= j < |init| ==> init[j] == taus[j];
    }
  }

  /** The earliest index among those with the shortest waiting time. */
  function EarliestMin(taus: seq<int>): (k: nat)
    requires taus != []
    ensures k < |taus|
  {
    if |taus| == 1 then 0
    else
      var k := EarliestMin(taus[..|taus| - 1]);
      if taus[|taus| - 1] < taus[k] then |taus| - 1 else k
  }

  /** No waiting time is shorter than EarliestMin's, and every index before it waits strictly longer. */
  lemma {:induction false} EarliestMinIsEarliest(taus: seq<int>)
    requires taus != []
    ensures var k := EarliestMin(taus);
            (forall j :: 0 <= j < |taus| ==> taus[k] <= taus[j]) &&
            (forall j :: 0 <= j < k ==> taus[j] > taus[k])
  {
    if |taus| > 1 {
      var init := taus[..|taus| - 1];
      EarliestMinIsEarliest(init);
      assert forall j :: 0 <= j < |init| ==> init[j] == taus[j];
    }
  }

  /** A longer prefix keeps an index that was already ready. */
  lemma FirstReadyPrefix(taus: seq<int>, i: nat)
    requires i < |taus| && FirstReady(taus[..i]).None?
    ensures FirstReady(taus[..i + 1]) == if taus[i] <= 0 then Some(i) else None
  {
    assert taus[..i + 1][..i] == taus[..i];
  }

  /** Scanning one more waiting time moves the candidate only to a strictly shorter wait. */
  lemma EarliestMinPrefix(taus: seq<int>, i: nat)
    requires 0 < i < |taus|
    ensures var k := EarliestMin(taus[..i]);
            EarliestMin(taus[..i + 1]) == if taus[i] < taus[k] then i else k
  {
    assert taus[..i + 1][..i] == taus[..i];
  }

  /** `W3`: one node connection with the least delay between two uses. */
  class W3 {
    const conn: Web3
    const delay: int
    var lastCallAt: int

    constructor (conn: Web3, delay: int)
      ensures this.conn == conn && this.delay == delay && lastCallAt == 0
    {
      this.conn := conn;
      this.delay := delay;
      lastCallAt := 0;
    }

    /** `usable_at`: the time from which the endpoint may be used again. */
    function UsableAt(): (t: int)
      reads this
      ensures delay >= 0 ==> t >= lastCallAt
      ensures t - lastCallAt == delay
    {
      lastCallAt + delay
    }

    /** `usable_in`: how long from `now` until the endpoint may be used; zero or less means now. */
    function UsableIn(now: int): (tau: int)
      reads this
      ensures tau <= 0 <==> now >= UsableAt()
      ensures tau > 0 ==> now < lastCallAt + delay
    {
      UsableAt() - now
    }

    /** `use`: records the call at `now` and hands out the connection, which is then blocked for one delay. */
    method Use(now: int) returns (c: Web3)
      modifies this
      ensures c == conn && lastCallAt == now
      ensures UsableIn(now) == delay
    {
      lastCallAt := now;
      c := conn;
    }
  }

  /** `W3Pool`: endpoints in the order they were added, and whether a logger was given. */
  class W3Pool {
    var w3s: seq<W3>
    const hasLogger: bool

    constructor (w3s: seq<W3>, hasLogger: bool)
      ensures this.w3s == w3s && this.hasLogger == hasLogger
    {
      this.w3s := w3s;
      this.hasLogger := hasLogger;
    }

    /** The waiting time of every endpoint at `now`, in pool order. */
    function Waits(now: int): (taus: seq<int>)
      reads this, w3s
      ensures |taus| == |w3s|
      ensures forall i :: 0 <= i < |w3s| ==> taus[i] == w3s[i].UsableIn(now)
    {
      seq(|w3s|, i reads this, w3s requires 0 <= i < |w3s| => w3s[i].UsableIn(now))
    }

    /** `add_w3`: appends the endpoint and returns the pool itself. */
    method AddW3(w3: W3) returns (p: W3Pool)
      modifies this
      ensures w3s == old(w3s) + [w3] && p == this
    {
      w3s := w3s + [w3];
      p := this;
    }

    /**
     * `use`: the first endpoint that is usable now; otherwise, when
     * blocking, the endpoint with the shortest wait (the earliest on a tie),
     * used once that wait is over; otherwise None.  Only the endpoint
     * handed out has its last call moved.  An empty pool raises "No Web3
     * instance found"; blocking without a logger raises when reporting the
     * endpoint after the wait.
     */
    method Use(block: bool, now: int, overshoot: nat) returns (r: Result<Option<Web3>, Error>)
      modifies w3s
      ensures w3s == old(w3s)
      ensures FirstReady(old(Waits(now))).Some? ==>
                var k := FirstReady(old(Waits(now))).value;
                r == Success(Some(w3s[k].conn)) && w3s[k].lastCallAt == now &&
                forall j :: 0 <= j < |w3s| && w3s[j] != w3s[k] ==> w3s[j].lastCallAt == old(w3s[j].lastCallAt)
      ensures FirstReady(old(Waits(now))).None? && w3s == [] ==> r == Failure(NoWeb3Instance)
      ensures FirstReady(old(Waits(now))).None? && w3s != [] && !block ==>
                r == Success(None) && forall j :: 0 <= j < |w3s| ==> w3s[j].lastCallAt == old(w3s[j].lastCallAt)
      ensures FirstReady(old(Waits(now))).None? && w3s != [] && block && !hasLogger ==>
                r == Failure(MissingLogger) && forall j :: 0 <= j < |w3s| ==> w3s[j].lastCallAt == old(w3s[j].lastCallAt)
      ensures FirstReady(old(Waits(now))).None? && w3s != [] && block && hasLogger ==>
                var k := EarliestMin(old(Waits(now)));
                var wait := old(w3s[k].UsableIn(now));
                r == Success(Some(w3s[k].conn)) &&
                w3s[k].lastCallAt == now + (if wait > 0 then wait else 0) + overshoot && w3s[k].lastCallAt >= old(w3s[k].UsableAt()) &&
                forall j :: 0 <= j < |w3s| && w3s[j] != w3s[k] ==> w3s[j].lastCallAt == old(w3s[j].lastCallAt)
    {
      var ready, nextAvailable := Scan(now);
      if ready.Some? {
        var c := w3s[ready.value].Use(now);
        return Success(Some(c));
      }
      if nextAvailable == null {
        return Failure(NoWeb3Instance);
      }
      if block {
        var sleep := nextAvailable.UsableIn(now);
        var wake := if sleep > 0 then now + sleep + overshoot else now + overshoot;
        if !hasLogger {
          // `self.logger.debug` on a missing logger
          return Failure(MissingLogger);
        }
        var c := nextAvailable.Use(wake);
        return Success(Some(c));
      }
      return Success(None);
    }

    /**
     * `use` with the logger call after the wait guarded like the other two
     * calls: blocking on a non-empty pool always hands out an endpoint.
     */
    method UseGuarded(block: bool, now: int, overshoot: nat) returns (r: Result<Option<Web3>, Error>)
      modifies w3s
      ensures w3s == old(w3s)
      ensures r.Failure? <==> w3s == []
      ensures r.Failure? ==> r.error == NoWeb3Instance
      ensures block && w3s != [] ==> r.Success? && r.value.Some?
      ensures FirstReady(old(Waits(now))).Some? ==>
                var k := FirstReady(old(Waits(now))).value;
                r == Success(Some(w3s[k].conn)) && w3s[k].lastCallAt == now &&
                forall j :: 0 <= j < |w3s| && w3s[j] != w3s[k] ==> w3s[j].lastCallAt == old(w3s[j].lastCallAt)
      ensures FirstReady(old(Waits(now))).None? && w3s != [] && !block ==>
                r == Success(None) && forall j :: 0 <= j < |w3s| ==> w3s[j].lastCallAt == old(w3s[j].lastCallAt)
      ensures FirstReady(old(Waits(now))).None? && w3s != [] && block ==>
                var k := EarliestMin(old(Waits(now)));
                var wait := old(w3s[k].UsableIn(now));
                r == Success(Some(w3s[k].conn)) &&
                w3s[k].lastCallAt == now + (if wait > 0 then wait else 0) + overshoot && w3s[k].lastCallAt >= old(w3s[k].UsableAt()) &&
                forall j :: 0 <= j < |w3s| && w3s[j] != w3s[k] ==> w3s[j].lastCallAt == old(w3s[j].lastCallAt)
    {
      var ready, nextAvailable := Scan(now);
      if ready.Some? {
        var c := w3s[ready.value].Use(now);
        return Success(Some(c));
      }
      if nextAvailable == null {
        return Failure(NoWeb3Instance);
      }
      if block {
        var sleep := nextAvailable.UsableIn(now);
        var wake := if sleep > 0 then now + sleep + overshoot else now + overshoot;
        var c := nextAvailable.Use(wake);
        return Success(Some(c));
      }
      return Success(None);
    }

    /**
     * The loop of `use`: stops at the first endpoint that is usable now;
     * otherwise the candidate `next_available` is the first endpoint with
     * the shortest wait, and there is none only in an empty pool.
     */
    method Scan(now: int) returns (ready: Option<nat>, nextAvailable: W3?)
      ensures ready == FirstReady(Waits(now))
      ensures ready.None? ==> (nextAvailable == null <==> w3s == [])
      ensures ready.None? && w3s != [] ==> nextAvailable == w3s[EarliestMin(Waits(now))]
    {
      ghost var taus := Waits(now);
      nextAvailable := null;
      ghost var next: nat := 0;
      var i := 0;
      while i < |w3s|
        invariant 0 <= i <= |w3s|
        invariant FirstReady(taus[..i]).None?
        invariant i == 0 <==> nextAvailable == null
        invariant i > 0 ==> next == EarliestMin(taus[..i]) && nextAvailable == w3s[next]
      {
        var tau := w3s[i].UsableIn(now);
        assert tau == taus[i];
        FirstReadyPrefix(taus, i);
        if tau <= 0 {
          assert taus[..|taus|][..i + 1] == taus[..i + 1];
          FirstReadyMonotone(taus, i + 1);
          return Some(i), nextAvailable;
        }
        if i > 0 {
          EarliestMinPrefix(taus, i);
        }
        assert i > 0 ==> nextAvailable.UsableIn(now) == taus[next];
        if nextAvailable == null || tau < nextAvailable.UsableIn(now) {
          nextAvailable := w3s[i];
          next := i;
        }
        i := i + 1;
      }
      assert taus[..i] == taus;
      return None, nextAvailable;
    }
  }

  /**
   * A pool given no logger whose only endpoint (delay 10, last used at 0)
   * is asked at time 5 to block: `use` raises after the wait instead of
   * handing the endpoint out.
   */
  method LoggerlessBlockingUse() returns (r: Result<Option<Web3>, Error>)
    ensures r == Failure(MissingLogger)
  {
    var endpoint := new W3(Web3(0), 10);
    var pool := new W3Pool([endpoint], false);
    assert pool.Waits(5) == [5];
    r := pool.Use(true, 5, 0);
  }

  /** The same request with the guarded logger call hands out the endpoint once its delay has passed. */
  method GuardedBlockingUse() returns (r: Result<Option<Web3>, Error>, lastCallAt: int)
    ensures r == Success(Some(Web3(0))) && lastCallAt == 10
  {
    var endpoint := new W3(Web3(0), 10);
    var pool := new W3Pool([endpoint], false);
    assert pool.Waits(5) == [5];
    r := pool.UseGuarded(true, 5, 0);
    lastCallAt := endpoint.lastCallAt;
  }

  /** An index that is ready in a prefix stays the first ready index of the whole sequence. */
  lemma {:induction false} FirstReadyMonotone(taus: seq<int>, i: nat)
    requires i <= |taus| && FirstReady(taus[..i]).Some?
    ensures FirstReady(taus) == FirstReady(taus[..i])
  {
    if i < |taus| {
      assert taus[..|taus| - 1][..i] == taus[..i];
      FirstReadyMonotone(taus[..|taus| - 1], i);
    } else {
      assert taus[..i] == taus;
    }
  }
}
