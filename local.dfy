/** Free-port discovery of the `local` package: random ports in
    [10000, 65535] are probed by binding to them until one binds or the
    three-second deadline passes.

    The random source is a stream of draws `draw(k)`, one per attempt; the
    outcome of binding a port at attempt `k` is `bind(k, port)`, so a port
    may be free at one attempt and busy at another; and the context deadline
    is `budget`, the number of times the loop finds the context not yet done
    (after which it stays done). */
module Local {
  import opened Wrappers

  /** `math.MaxUint16`. */
  const MaxUint16: int := 0xFFFF

  /** Highest port tried (`maxPort`). */
  const MaxPort: int := MaxUint16

  /** Lowest port tried (`minPort`). */
  const MinPort: int := 10000

  /** An unsigned 16-bit integer. */
  type Uint16 = x: int | 0 <= x <= MaxUint16

  /** A value of `rand.Intn(maxPort-minPort+1)`, which lies in [0, n). */
  type Draw = r: int | 0 <= r < MaxPort - MinPort + 1

  /** The error of a context whose deadline passed (`context.DeadlineExceeded`). */
  datatype Error = DeadlineExceeded

  /** The Go conversion `uint16(x)` of an integer: it keeps the low 16 bits. */
  function ToUint16(x: int): (r: Uint16)
    ensures 0 <= x <= MaxUint16 ==> r == x
  {
    x % 0x1_0000
  }

  /** The candidate port built from a draw: `uint16(r + minPort)`. The sum
      already fits in 16 bits, so the conversion loses nothing, and the
      candidate lies in [minPort, maxPort]. */
  function Candidate(r: Draw): (port: Uint16)
    ensures port == r + MinPort
    ensures MinPort <= port <= MaxPort
  {
    ToUint16(r + MinPort)
  }

  /** What `net.Listen("tcp", ":<port>")` did. */
  datatype ListenResult = Listening | ListenFailed(cause: string)

  /** `isFreePort`: a port is free exactly when the bind succeeds; the
      listener is then closed and any error closing it ignored. */
  function IsFreePort(l: ListenResult): (free: bool)
    ensures !free <==> l.ListenFailed?
  {
    match l
    case ListenFailed(_) => false
    case Listening => true
  }

  /** Attempt `k` draws a candidate and finds it free. */
  predicate Accepted(draw: nat -> Draw, bind: (nat, Uint16) -> ListenResult, k: nat) {
    IsFreePort(bind(k, Candidate(draw(k))))
  }

  /** The first attempt in [k, budget) whose candidate is found free, if any. */
  function FirstFree(draw: nat -> Draw, bind: (nat, Uint16) -> ListenResult, k: nat, budget: nat): (r: Option<nat>)
    ensures r.Some? ==> k <= r.value < budget && Accepted(draw, bind, r.value)
    ensures r.Some? ==> forall j | k <= j < r.value :: !Accepted(draw, bind, j)
    ensures r.None? ==> forall j | k <= j < budget :: !Accepted(draw, bind, j)
    decreases budget - k
  {
    if budget <= k then None
    else if Accepted(draw, bind, k) then Some(k)
    else FirstFree(draw, bind, k + 1, budget)
  }

  /** `getFreePort`: returns the candidate of the first attempt that binds,
      with a nil error, or port 0 with the deadline error once the context
      is done. */
  method GetFreePort(draw: nat -> Draw, bind: (nat, Uint16) -> ListenResult, budget: nat)
    returns (port: Uint16, err: Outcome<Error>)
    ensures err.Fail? <==> FirstFree(draw, bind, 0, budget).None?
    ensures err.Fail? ==> port == 0 && err.error == DeadlineExceeded
    ensures err.Pass? ==> port == Candidate(draw(FirstFree(draw, bind, 0, budget).value))
    ensures err.Pass? ==> MinPort <= port <= MaxPort
    // a deadline that has already passed yields the timeout at once
    ensures budget == 0 ==> err == Fail(DeadlineExceeded) && port == 0
    // only a candidate found free is returned, and every earlier one was busy
    ensures err.Pass? ==> exists k: nat | k < budget :: port == Candidate(draw(k)) && IsFreePort(bind(k, port))
                                                       && forall j | 0 <= j < k :: !Accepted(draw, bind, j)
    // a timeout means no attempt before the deadline found its candidate free
    ensures err.Fail? ==> forall j | 0 <= j < budget :: !Accepted(draw, bind, j)
  {
    var k: nat := 0;
    while true
      invariant k <= budget
      invariant FirstFree(draw, bind, k, budget) == FirstFree(draw, bind, 0, budget)
      decreases budget - k
    {
      if budget <= k {
        // <-ctx.Done()
        return 0, Fail(DeadlineExceeded);
      }
      port := Candidate(draw(k));
      if !IsFreePort(bind(k, port)) {
        // not free: try another
        k := k + 1;
        continue;
      }
      return port, Pass;
    }
  }

  /** A later deadline does not change a success: the same attempt is the
      first to bind. */
  lemma FirstFreeLaterDeadline(draw: nat -> Draw, bind: (nat, Uint16) -> ListenResult,
                               k: nat, budget: nat, later: nat)
    requires budget <= later
    requires FirstFree(draw, bind, k, budget).Some?
    ensures FirstFree(draw, bind, k, later) == FirstFree(draw, bind, k, budget)
  {
  }
}
