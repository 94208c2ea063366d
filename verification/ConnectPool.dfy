/** The elastic connection pool of a Redis node, and what it keeps over every sequence of borrows and releases. */
module ConnectPool {
  import opened Options

  const WORD := 0x1_0000_0000

  /** The fields of a pool: two limits, two 32-bit counters, and the idle connections, oldest first. */
  datatype Pool<Conn> = Pool(poolSize: nat, maxSize: nat, borrowSize: nat, busy: nat, idle: seq<Conn>)

  /** `++` and `--` on a `uint32_t`. */
  function Up(x: nat): nat {
    if x == WORD - 1 then 0 else x + 1
  }

  function Down(x: nat): nat {
    if x == 0 then WORD - 1 else x - 1
  }

  /** A `uint32_t` counter after n increments. */
  function Wrapped(n: nat): (x: nat)
    ensures x < WORD && (n < WORD ==> x == n)
  {
    if n == 0 then 0 else Up(Wrapped(n - 1))
  }

  lemma UpAndDown(x: nat)
    requires x < WORD
    ensures Up(x) == (x + 1) % WORD && Down(x) == (x - 1) % WORD
  {
  }

  lemma {:induction false} WrappedIsRemainder(n: nat)
    ensures Wrapped(n) == n % WORD
  {
    if n > 0 {
      WrappedIsRemainder(n - 1);
      UpAndDown(Wrapped(n - 1));
    }
  }

  /** The pool after a borrow; `built` is what the builder would return, None for a null pointer. */
  function Borrowed<Conn>(p: Pool<Conn>, built: Option<Conn>): Pool<Conn> {
    var size := Up(p.borrowSize);
    p.(borrowSize := size,
       busy := if size > p.poolSize then Up(p.busy) else 0,
       idle := if p.idle == [] then [] else p.idle[1..])
  }

  function Lends<Conn>(p: Pool<Conn>, built: Option<Conn>): Option<Conn> {
    if p.idle == [] then built else Some(p.idle[0])
  }

  /** A released connection is kept while the pool is below its size, or below its maximum and busy. */
  predicate Keeps<Conn>(p: Pool<Conn>) {
    |p.idle| < p.maxSize && (|p.idle| < p.poolSize || p.busy > 0)
  }

  function Released<Conn>(p: Pool<Conn>, conn: Conn): Pool<Conn> {
    p.(borrowSize := Down(p.borrowSize), idle := if Keeps(p) then p.idle + [conn] else p.idle)
  }

  class ConnectPool<Conn(==)> {
    var poolSize: nat
    var maxSize: nat
    var borrowSize: nat
    var busy: nat
    var connList: seq<Conn>

    ghost function State(): Pool<Conn>
      reads this
    {
      Pool(poolSize, maxSize, borrowSize, busy, connList)
    }

    /** `built` are the results of the builder, one for each connection of the initial size. */
    constructor (pool_size: nat, max_size: nat, built: seq<Option<Conn>>)
      requires pool_size <= max_size && |built| == pool_size
      ensures State() == Pool(pool_size, max_size, 0, 0, Somes(built))
    {
      poolSize, maxSize, borrowSize, busy, connList := pool_size, max_size, 0, 0, [];
      new;
      for i := 0 to poolSize
        invariant State() == Pool(pool_size, max_size, 0, 0, Somes(built[..i]))
      {
        assert built[..i + 1][..i] == built[..i];
        if built[i].Some? {
          connList := connList + [built[i].value];
        }
      }
      assert built[..pool_size] == built;
    }

    method Borrow(built: Option<Conn>) returns (conn: Option<Conn>)
      modifies this
      ensures State() == Borrowed(old(State()), built)
      ensures conn == Lends(old(State()), built)
      ensures old(connList) != [] ==> conn == Some(old(connList)[0]) && connList == old(connList)[1..]
      ensures old(connList) == [] ==> conn == built && connList == []
    {
      conn := None;
      if |connList| > 0 {
        conn := Some(connList[0]);
        connList := connList[1..];
        borrowSize := Up(borrowSize);
      } else {
        conn := built;
        borrowSize := Up(borrowSize);
      }
      if borrowSize > poolSize {
        busy := Up(busy);
      } else {
        busy := 0;
      }
    }

    /** Releasing a null pointer changes nothing. */
    method Release(conn: Option<Conn>) returns (ok: bool)
      modifies this
      ensures State() == if conn.None? then old(State()) else Released(old(State()), conn.value)
      ensures ok <==> conn.Some? && |old(connList)| < maxSize
      ensures conn.Some? ==>
                connList == if |old(connList)| < maxSize && (|old(connList)| < poolSize || busy > 0) then old(connList) + [conn.value]
                            else old(connList)
    {
      if conn.None? {
        return false;
      }
      borrowSize := Down(borrowSize);
      if |connList| >= maxSize {
        return false;
      }
      if |connList| < poolSize {
        connList := connList + [conn.value];
        return true;
      }
      if busy > 0 {
        connList := connList + [conn.value];
        return true;
      }
      return true;
    }
  }

  function Somes<T>(s: seq<Option<T>>): seq<T> {
    if s == [] then []
    else
      var n := |s| - 1;
      Somes(s[..n]) + if s[n].Some? then [s[n].value] else []
  }

  // ------------------------------------------------------------------ every sequence of borrows and releases

  /** Connections are numbered in the order in which the builder makes them. */
  type Conn = nat

  /** The pool, the connections lent, the number made so far, and how many borrows came back empty-handed. */
  datatype World = World(pool: Pool<Conn>, lent: set<Conn>, made: nat, failed: nat)

  /** A borrow, with a builder that works or fails; or the release of a connection that is lent. */
  datatype Use = Borrow(ok: bool) | Release(conn: Conn)

  /** A pool and the number of its first connections that could be built. */
  datatype Setup = Setup(poolSize: nat, maxSize: nat, built: nat)

  /** What the constructor accepts. */
  predicate SetupOk(p: Setup) {
    p.built <= p.poolSize <= p.maxSize < WORD
  }

  function Start(p: Setup): World {
    World(Pool(p.poolSize, p.maxSize, 0, 0, Numbers(p.built)), {}, p.built, 0)
  }

  function Numbers(n: nat): (s: seq<Conn>)
    ensures |s| == n && forall i :: 0 <= i < n ==> s[i] == i
  {
    if n == 0 then [] else Numbers(n - 1) + [n - 1]
  }

  function Step(w: World, u: Use): Option<World> {
    match u
    case Borrow(ok) => Some(AfterBorrow(w, ok))
    case Release(c) => if c in w.lent then Some(AfterRelease(w, c)) else None
  }

  function AfterBorrow(w: World, ok: bool): World {
    var built := if ok then Some(w.made) else None;
    var pool := Borrowed(w.pool, built);
    match Lends(w.pool, built)
    case None => World(pool, w.lent, w.made, w.failed + 1)
    case Some(c) => World(pool, w.lent + {c}, if w.pool.idle == [] then w.made + 1 else w.made, w.failed)
  }

  function AfterRelease(w: World, c: Conn): World {
    World(Released(w.pool, c), w.lent - {c}, w.made, w.failed)
  }

  function Exec(p: Setup, uses: seq<Use>): Option<World> {
    if uses == [] then Some(Start(p))
    else
      match Exec(p, uses[..|uses| - 1])
      case None => None
      case Some(w) => Step(w, uses[|uses| - 1])
  }

  function Total(w: World): nat {
    |w.pool.idle| + |w.lent|
  }

  function Min(a: int, b: int): int {
    if a < b then a else b
  }

  function Max(a: int, b: int): int {
    if a < b then b else a
  }

  ghost predicate Inv(p: Setup, w: World) {
    && w.pool.poolSize == p.poolSize && w.pool.maxSize == p.maxSize && w.pool.busy < WORD
    && (forall i, j :: 0 <= i < j < |w.pool.idle| ==> w.pool.idle[i] != w.pool.idle[j])
    && (forall c :: c in w.pool.idle ==> c !in w.lent && c < w.made)
    && (forall c :: c in w.lent ==> c < w.made)
    && w.pool.borrowSize == Wrapped(|w.lent| + w.failed)
    && |w.pool.idle| <= p.maxSize
    && Min(p.poolSize, w.made) <= Total(w) <= w.made
  }

  lemma BorrowIdleKeepsInv(p: Setup, w: World, ok: bool)
    requires Inv(p, w) && w.pool.idle != []
    ensures Inv(p, AfterBorrow(w, ok))
  {
    var first, rest := w.pool.idle[0], w.pool.idle[1..];
    assert first in w.pool.idle;
    forall c | c in rest ensures c != first && c !in w.lent && c < w.made {
      var i :| 0 <= i < |rest| && rest[i] == c;
      assert w.pool.idle[i + 1] == c;
    }
  }

  lemma BorrowBuiltKeepsInv(p: Setup, w: World, ok: bool)
    requires Inv(p, w) && w.pool.idle == []
    ensures Inv(p, AfterBorrow(w, ok))
  {
    assert w.made !in w.lent;
  }

  lemma ReleaseKeepsInv(p: Setup, w: World, c: Conn)
    requires SetupOk(p) && Inv(p, w) && c in w.lent
    ensures Inv(p, AfterRelease(w, c))
  {
    assert |w.lent - {c}| == |w.lent| - 1;
  }

  lemma UseKeepsInv(p: Setup, w: World, u: Use)
    requires SetupOk(p) && Inv(p, w) && Step(w, u).Some?
    ensures Inv(p, Step(w, u).value)
  {
    match u
    case Borrow(ok) =>
      if w.pool.idle == [] {
        BorrowBuiltKeepsInv(p, w, ok);
      } else {
        BorrowIdleKeepsInv(p, w, ok);
      }
    case Release(c) => ReleaseKeepsInv(p, w, c);
  }

  lemma {:induction false} Safety(p: Setup, uses: seq<Use>)
    requires SetupOk(p) && Exec(p, uses).Some?
    ensures Inv(p, Exec(p, uses).value)
  {
    if uses != [] {
      var before := uses[..|uses| - 1];
      Safety(p, before);
      UseKeepsInv(p, Exec(p, before).value, uses[|uses| - 1]);
    }
  }

  /** Conservation, over every sequence of uses and however many of the first connections could be built: no connection
      is idle twice, or idle and lent at once; the borrow count is, as long as it does not wrap, the number lent exactly
      when no borrow came back empty-handed (such a borrow is counted and can never be given back); the idle ones never
      exceed the maximum; and idle and lent together are at least the size exactly from when that many connections have
      been made. */
  lemma Conservation(p: Setup, uses: seq<Use>)
    requires SetupOk(p) && Exec(p, uses).Some?
    ensures var w := Exec(p, uses).value;
            && (forall i, j :: 0 <= i < j < |w.pool.idle| ==> w.pool.idle[i] != w.pool.idle[j])
            && (forall c :: c in w.pool.idle ==> c !in w.lent)
            && (|w.lent| + w.failed < WORD ==> (w.pool.borrowSize == |w.lent| <==> w.failed == 0))
            && |w.pool.idle| <= p.maxSize
            && (Total(w) >= p.poolSize <==> w.made >= p.poolSize)
            && Min(p.poolSize, w.made) <= Total(w) <= w.made
  {
    Safety(p, uses);
    CountOf(Exec(p, uses).value);
  }

  lemma CountOf(w: World)
    requires w.pool.borrowSize == Wrapped(|w.lent| + w.failed)
    ensures |w.lent| + w.failed < WORD ==> (w.pool.borrowSize == |w.lent| <==> w.failed == 0)
  {
  }

  // ------------------------------------------------------------------ oldest first

  function ExecFrom(w: World, uses: seq<Use>): Option<World> {
    if uses == [] then Some(w)
    else
      match ExecFrom(w, uses[..|uses| - 1])
      case None => None
      case Some(w2) => Step(w2, uses[|uses| - 1])
  }

  function Borrows(uses: seq<Use>): nat {
    if uses == [] then 0 else Borrows(uses[..|uses| - 1]) + if uses[|uses| - 1].Borrow? then 1 else 0
  }

  /** The idle connections are a queue: whatever is borrowed and given back meanwhile, the one at position i is lent by
      the borrow after the next i, and stays in the pool until then. */
  lemma {:induction false} OldestFirst(w: World, uses: seq<Use>, i: nat)
    requires i < |w.pool.idle| && ExecFrom(w, uses).Some? && Borrows(uses) <= i
    ensures var pool, left := ExecFrom(w, uses).value.pool, i - Borrows(uses);
            && left < |pool.idle| && pool.idle[left] == w.pool.idle[i]
            && (left == 0 ==> forall built :: Lends(pool, built) == Some(w.pool.idle[i]))
  {
    if uses != [] {
      var before := uses[..|uses| - 1];
      OldestFirst(w, before, i);
    }
  }

  /** A connection that is given back and kept stands at the end of the queue. */
  lemma KeptAtTheEnd(w: World, c: Conn)
    requires c in w.lent && Keeps(w.pool)
    ensures Step(w, Release(c)).Some? && Step(w, Release(c)).value.pool.idle == w.pool.idle + [c]
  {
  }

  // ------------------------------------------------------------------ the maximum

  lemma Then(p: Setup, uses: seq<Use>, u: Use) returns (all: seq<Use>, w: World)
    requires Exec(p, uses).Some? && Step(Exec(p, uses).value, u).Some?
    ensures all == uses + [u] && Exec(p, all) == Some(w) == Step(Exec(p, uses).value, u)
  {
    all, w := uses + [u], Step(Exec(p, uses).value, u).value;
    assert all[..|uses|] == uses;
  }

  /** The claim that the pool never grows beyond its maximum does not hold: a pool of one, at most one, borrowed from
      twice, has two connections. */
  lemma MaximumIsExceeded() returns (uses: seq<Use>)
    ensures var p := Setup(1, 1, 1);
            uses == [Borrow(true), Borrow(true)] && Exec(p, uses).Some? && Total(Exec(p, uses).value) == 2 > p.maxSize
  {
    var p := Setup(1, 1, 1);
    var w;
    assert Numbers(1) == [0];
    uses, w := Then(p, [], Borrow(true));
    assert w.lent == {0} && w.pool.idle == [] && w.made == 1;
    uses, w := Then(p, uses, Borrow(true));
    assert w.lent == {0, 1};
  }

  /** A borrow looks at no limit: it keeps the total within the maximum exactly when fewer than the maximum are lent, or
      the builder fails with nothing idle. */
  lemma BorrowWithinMaximumIff(p: Setup, w: World, ok: bool)
    requires Inv(p, w) && Total(w) <= p.maxSize
    ensures Total(AfterBorrow(w, ok)) <= p.maxSize <==> |w.lent| < p.maxSize || (!ok && w.pool.idle == [])
  {
    if w.pool.idle != [] {
      assert w.pool.idle[0] in w.pool.idle;
    } else {
      assert w.made !in w.lent;
    }
  }

  /** The pool was within its maximum at every moment. */
  predicate TotalWithin(p: Setup, uses: seq<Use>)
    requires Exec(p, uses).Some?
  {
    Total(Exec(p, uses).value) <= p.maxSize && (uses == [] || TotalWithin(p, uses[..|uses| - 1]))
  }

  /** Its users never held more than the maximum. */
  predicate LentWithin(p: Setup, uses: seq<Use>)
    requires Exec(p, uses).Some?
  {
    |Exec(p, uses).value.lent| <= p.maxSize && (uses == [] || LentWithin(p, uses[..|uses| - 1]))
  }

  /** Over a whole sequence: the pool stays within its maximum exactly when its users never hold more than the maximum
      at once. */
  lemma {:induction false} WithinMaximumIff(p: Setup, uses: seq<Use>)
    requires SetupOk(p) && Exec(p, uses).Some?
    ensures TotalWithin(p, uses) <==> LentWithin(p, uses)
  {
    if uses != [] {
      var before := uses[..|uses| - 1];
      WithinMaximumIff(p, before);
      if LentWithin(p, uses) {
        Safety(p, before);
        UseStaysWithin(p, Exec(p, before).value, uses[|uses| - 1]);
      }
    }
  }

  lemma UseStaysWithin(p: Setup, w: World, u: Use)
    requires SetupOk(p) && Inv(p, w) && Total(w) <= p.maxSize && Step(w, u).Some?
    requires |Step(w, u).value.lent| <= p.maxSize
    ensures Total(Step(w, u).value) <= p.maxSize
  {
    match u
    case Borrow(ok) => BorrowStaysWithin(p, w, ok);
    case Release(c) =>
      assert |w.lent - {c}| == |w.lent| - 1;
  }

  lemma BorrowStaysWithin(p: Setup, w: World, ok: bool)
    requires Inv(p, w) && Total(w) <= p.maxSize && |AfterBorrow(w, ok).lent| <= p.maxSize
    ensures Total(AfterBorrow(w, ok)) <= p.maxSize
  {
    if w.pool.idle != [] {
      assert w.pool.idle[0] in w.pool.idle;
    }
  }

  // ------------------------------------------------------------------ shrinking back

  /** The connection that a borrow with a working builder lends. */
  function Lent(w: World): Conn {
    if w.pool.idle == [] then w.made else w.pool.idle[0]
  }

  /** A borrow with a working builder, and the release of the connection it lent. */
  function Pair(w: World): World {
    AfterRelease(AfterBorrow(w, true), Lent(w))
  }

  /** Nothing is lent. */
  predicate Quiet(p: Setup, w: World) {
    && w.pool.poolSize == p.poolSize && w.pool.maxSize == p.maxSize && w.lent == {}
    && w.pool.borrowSize == Wrapped(w.failed) && w.pool.busy < WORD && |w.pool.idle| <= p.maxSize
  }

  lemma RunIsQuiet(p: Setup, uses: seq<Use>)
    requires SetupOk(p) && Exec(p, uses).Some? && Exec(p, uses).value.lent == {}
    ensures Quiet(p, Exec(p, uses).value)
  {
    Safety(p, uses);
  }

  /** What a pair does to a pool that has nothing lent: the idle connections lose one, unless the pool takes the borrow
      for a sign of being busy. */
  lemma PairEffect(p: Setup, w: World)
    requires SetupOk(p) && Quiet(p, w)
    ensures var w2 := Pair(w);
            var busy := if Wrapped(w.failed + 1) > p.poolSize then Up(w.pool.busy) else 0;
            var taken := Max(|w.pool.idle| - 1, 0);
            && Quiet(p, w2) && w2.failed == w.failed && w2.pool.busy == busy
            && |w2.pool.idle| == if taken < p.maxSize && (taken < p.poolSize || busy > 0) then taken + 1 else taken
  {
    assert AfterBorrow(w, true).lent == {Lent(w)};
  }

  /** After any sequence of uses with nothing lent and more connections idle than the pool's size, a borrow and a release
      drop one exactly when fewer borrows than that size have come back empty-handed: each of those counts as lent for
      ever.  In particular a pool of size 0 never drops one.  (The counts are 32 bits wide: both may wrap, and the busy
      count is then 0 once.) */
  lemma ShrinksIff(p: Setup, uses: seq<Use>)
    requires SetupOk(p) && Exec(p, uses).Some?
    requires Exec(p, uses).value.lent == {} && |Exec(p, uses).value.pool.idle| > p.poolSize
    ensures var w := Exec(p, uses).value;
            && (|Pair(w).pool.idle| == |w.pool.idle| - 1 <==> Wrapped(w.failed + 1) <= p.poolSize || w.pool.busy == WORD - 1)
            && (|Pair(w).pool.idle| == |w.pool.idle| - 1 || |Pair(w).pool.idle| == |w.pool.idle|)
            && (w.failed + 1 < WORD && w.pool.busy < WORD - 1 ==>
                  (|Pair(w).pool.idle| == |w.pool.idle| - 1 <==> w.failed < p.poolSize))
  {
    RunIsQuiet(p, uses);
    PairEffect(p, Exec(p, uses).value);
  }

  /** With exactly as many idle as the pool's size, a borrow and a release keep them, unless the size is 0: then the
      connection made for the borrow stays, in a pool that may hold one. */
  lemma KeepsSizeIff(p: Setup, uses: seq<Use>)
    requires SetupOk(p) && Exec(p, uses).Some?
    requires Exec(p, uses).value.lent == {} && |Exec(p, uses).value.pool.idle| == p.poolSize
    ensures var w := Exec(p, uses).value;
            |Pair(w).pool.idle| == p.poolSize <==>
            p.poolSize >= 1 || p.maxSize == 0 || Wrapped(w.failed + 1) == 0 || w.pool.busy == WORD - 1
  {
    RunIsQuiet(p, uses);
    PairEffect(p, Exec(p, uses).value);
  }

  function Pairs(w: World, n: nat): World {
    if n == 0 then w else Pair(Pairs(w, n - 1))
  }

  lemma {:induction false} PairsStayQuiet(p: Setup, w: World, n: nat)
    requires SetupOk(p) && Quiet(p, w) && w.pool.busy + n < WORD
    ensures Quiet(p, Pairs(w, n)) && Pairs(w, n).failed == w.failed && Pairs(w, n).pool.busy <= w.pool.busy + n
  {
    if n > 0 {
      PairsStayQuiet(p, w, n - 1);
      PairEffect(p, Pairs(w, n - 1));
    }
  }

  lemma PairMoves(p: Setup, w: World)
    requires SetupOk(p) && Quiet(p, w) && w.failed + 1 < WORD && w.pool.busy + 1 < WORD
    ensures w.failed < p.poolSize <= |w.pool.idle| ==> |Pair(w).pool.idle| == Max(p.poolSize, |w.pool.idle| - 1)
    ensures w.failed >= p.poolSize && |w.pool.idle| > p.poolSize ==> |Pair(w).pool.idle| == |w.pool.idle|
  {
    PairEffect(p, w);
  }

  lemma {:induction false} PairsShrink(p: Setup, w: World, n: nat)
    requires SetupOk(p) && Quiet(p, w) && w.failed + 1 < WORD && w.pool.busy + n < WORD
    requires w.failed < p.poolSize <= |w.pool.idle|
    ensures |Pairs(w, n).pool.idle| == Max(p.poolSize, |w.pool.idle| - n)
  {
    if n > 0 {
      PairsShrink(p, w, n - 1);
      PairsStayQuiet(p, w, n - 1);
      OneCloser(p, Pairs(w, n - 1), |w.pool.idle|, n);
    }
  }

  lemma OneCloser(p: Setup, w: World, idle: nat, n: nat)
    requires SetupOk(p) && Quiet(p, w) && w.failed + 1 < WORD && w.pool.busy + 1 < WORD && w.failed < p.poolSize
    requires n >= 1 && |w.pool.idle| == Max(p.poolSize, idle - (n - 1))
    ensures |Pair(w).pool.idle| == Max(p.poolSize, idle - n)
  {
    PairMoves(p, w);
  }

  lemma {:induction false} PairsKeep(p: Setup, w: World, n: nat)
    requires SetupOk(p) && Quiet(p, w) && w.failed + 1 < WORD && w.pool.busy + n < WORD
    requires w.failed >= p.poolSize && |w.pool.idle| > p.poolSize
    ensures |Pairs(w, n).pool.idle| == |w.pool.idle|
  {
    if n > 0 {
      PairsKeep(p, w, n - 1);
      PairsStayQuiet(p, w, n - 1);
      PairMoves(p, Pairs(w, n - 1));
    }
  }

  /** After any sequence of uses with nothing lent: n such pairs take a pool that has at least its size idle back towards
      its size and keep it there, if fewer borrows than its size have come back empty-handed; and otherwise a pool that
      has more than its size idle keeps them all, for as long as the busy count does not wrap. */
  lemma ShrinksBack(p: Setup, uses: seq<Use>, n: nat)
    requires SetupOk(p) && Exec(p, uses).Some?
    requires var w := Exec(p, uses).value;
             w.lent == {} && |w.pool.idle| >= p.poolSize && w.failed + 1 < WORD && w.pool.busy + n < WORD
    ensures var w := Exec(p, uses).value;
            && (w.failed < p.poolSize ==> |Pairs(w, n).pool.idle| == Max(p.poolSize, |w.pool.idle| - n))
            && (w.failed >= p.poolSize && |w.pool.idle| > p.poolSize ==> |Pairs(w, n).pool.idle| == |w.pool.idle|)
  {
    RunIsQuiet(p, uses);
    var w := Exec(p, uses).value;
    if w.failed < p.poolSize {
      PairsShrink(p, w, n);
    } else if |w.pool.idle| > p.poolSize {
      PairsKeep(p, w, n);
    }
  }

  /** A pool of size 1 with nothing lent that has two connections idle and keeps them: one borrow came back empty-handed
      while the builder failed. */
  lemma FailedBuildKeepsPoolLarge() returns (uses: seq<Use>)
    ensures var p := Setup(1, 3, 1);
            && uses == [Borrow(true), Borrow(false), Borrow(true), Release(0), Release(1)]
            && Exec(p, uses).Some?
            && var w := Exec(p, uses).value;
               w.lent == {} && |w.pool.idle| == 2 && w.failed == 1 && |Pair(w).pool.idle| == 2
  {
    var p := Setup(1, 3, 1);
    var w;
    assert Numbers(1) == [0];
    uses, w := Then(p, [], Borrow(true));
    assert w.lent == {0} && w.pool.idle == [] && w.made == 1;
    uses, w := Then(p, uses, Borrow(false));
    assert w.lent == {0} && w.pool.idle == [] && w.pool.busy == 1;
    uses, w := Then(p, uses, Borrow(true));
    assert w.lent == {0, 1} && w.pool.idle == [] && w.pool.busy == 2;
    uses, w := Then(p, uses, Release(0));
    assert w.lent == {1} && w.pool.idle == [0];
    uses, w := Then(p, uses, Release(1));
    assert w.lent == {} && w.pool.idle == [0, 1];
  }
}
