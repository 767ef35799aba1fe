/** The concurrent reader of licence metadata: readers share a pool of tokens, report through a channel and start further
    readers. One step of one goroutine at a time, in any order. */
module ReadGraph {
  import opened Sums

  type File = string

  datatype Option<T> = None | Some(value: T)

  /** What does not change: the root files, what each file depends on, and the size of the token pool. */
  datatype Env = Env(roots: seq<File>, deps: File -> seq<File>, tokens: nat)

  /** Where the goroutine of one file is.
      Reading: it holds a token; Releasing: its result is sent; AtDep: its token is back and it looks at a dependency;
      Adding: it has marked that dependency as scheduled; Waiting: it has told the wait group and waits for a token. */
  datatype Phase = Reading | Releasing | AtDep(i: nat) | Adding(i: nat) | Waiting(i: nat) | Finished

  datatype Reader = Reader(file: File, phase: Phase)

  /** The goroutine that schedules the roots. */
  datatype Scheduler = Start | AtRoot(i: nat) | WaitRoot(i: nat) | Scheduled

  /** The goroutine that closes the channels. */
  datatype Closer = NotStarted | AwaitGroup | TaskClosed | AllClosed

  datatype State = State(scheduler: Scheduler, closer: Closer, pool: nat, group: int, readers: seq<Reader>,
                         results: seq<File>, targets: set<File>, received: set<File>, done: bool)

  datatype Step =
    | MarkRoots | AddRoot | StartRoot | EndSchedule
    | Send(r: nat) | Release(r: nat) | Look(r: nat) | Add(r: nat) | StartDep(r: nat) | Finish(r: nat)
    | CloseTask | CloseResults | Receive | Leave

  ghost function Initial(env: Env): State {
    State(Start, NotStarted, env.tokens, 0, [], [], {}, {}, false)
  }

  ghost predicate Is(s: State, r: nat, p: Phase) {
    r < |s.readers| && s.readers[r].phase == p
  }

  ghost predicate InDep(env: Env, s: State, r: nat) {
    r < |s.readers| && s.readers[r].phase.AtDep? && s.readers[r].phase.i < |env.deps(s.readers[r].file)|
  }

  /** What blocks a goroutine: an empty pool, a full channel, a wait group that is not at zero. */
  ghost predicate Enabled(env: Env, s: State, st: Step) {
    match st
    case MarkRoots => s.scheduler == Start
    case AddRoot => s.scheduler.AtRoot? && s.scheduler.i < |env.roots|
    case StartRoot => s.scheduler.WaitRoot? && s.scheduler.i < |env.roots| && s.pool > 0
    case EndSchedule => s.scheduler.AtRoot? && s.scheduler.i >= |env.roots|
    case Send(r) => Is(s, r, Reading) && |s.results| < env.tokens
    case Release(r) => Is(s, r, Releasing) && s.pool < env.tokens
    case Look(r) => InDep(env, s, r)
    case Add(r) => r < |s.readers| && s.readers[r].phase.Adding?
    case StartDep(r) => r < |s.readers| && s.readers[r].phase.Waiting? && s.readers[r].phase.i < |env.deps(s.readers[r].file)| && s.pool > 0
    case Finish(r) => r < |s.readers| && s.readers[r].phase.AtDep? && !InDep(env, s, r)
    case CloseTask => s.closer == AwaitGroup && s.group == 0
    case CloseResults => s.closer == TaskClosed
    case Receive => !s.done && s.results != []
    case Leave => !s.done && s.results == [] && s.closer == AllClosed
  }

  ghost function RootSet(env: Env): set<File> {
    set f | f in env.roots
  }

  ghost function Moved(s: State, r: nat, p: Phase): (rs: seq<Reader>)
    requires r < |s.readers|
    ensures |rs| == |s.readers|
  {
    s.readers[r := s.readers[r].(phase := p)]
  }

  ghost function Apply(env: Env, s: State, st: Step): State
    requires Enabled(env, s, st)
  {
    match st
    case MarkRoots => s.(targets := RootSet(env), scheduler := AtRoot(0))
    case AddRoot => s.(group := s.group + 1, scheduler := WaitRoot(s.scheduler.i))
    case StartRoot =>
      s.(pool := s.pool - 1, readers := s.readers + [Reader(env.roots[s.scheduler.i], Reading)],
         scheduler := AtRoot(s.scheduler.i + 1))
    case EndSchedule => s.(scheduler := Scheduled, closer := AwaitGroup)
    case Send(r) => s.(results := s.results + [s.readers[r].file], readers := Moved(s, r, Releasing))
    case Release(r) => s.(pool := s.pool + 1, readers := Moved(s, r, AtDep(0)))
    case Look(r) =>
      var i := s.readers[r].phase.i;
      var d := env.deps(s.readers[r].file)[i];
      if d in s.targets then s.(readers := Moved(s, r, AtDep(i + 1)))
      else s.(targets := s.targets + {d}, readers := Moved(s, r, Adding(i)))
    case Add(r) => s.(group := s.group + 1, readers := Moved(s, r, Waiting(s.readers[r].phase.i)))
    case StartDep(r) =>
      var i := s.readers[r].phase.i;
      s.(pool := s.pool - 1,
         readers := Moved(s, r, AtDep(i + 1)) + [Reader(env.deps(s.readers[r].file)[i], Reading)])
    case Finish(r) => s.(group := s.group - 1, readers := Moved(s, r, Finished))
    case CloseTask => s.(closer := TaskClosed)
    case CloseResults => s.(closer := AllClosed)
    case Receive => s.(received := s.received + {s.results[0]}, results := s.results[1..])
    case Leave => s.(done := true)
  }

  /** A run: each state but the first comes from the one before by some step. */
  ghost predicate IsRun(env: Env, run: seq<State>) {
    && run != [] && run[0] == Initial(env)
    && forall k :: 0 < k < |run| ==> Successor(env, run[k - 1], run[k])
  }

  ghost predicate Successor(env: Env, s: State, s': State) {
    exists st :: Enabled(env, s, st) && s' == Apply(env, s, st)
  }

  // Adding up over the readers.

  ghost function Total(rs: seq<Reader>, w: Reader -> nat): nat {
    if rs == [] then 0 else Total(rs[..|rs| - 1], w) + w(rs[|rs| - 1])
  }

  lemma {:induction false} TotalUpdate(rs: seq<Reader>, i: nat, r: Reader, w: Reader -> nat)
    requires i < |rs|
    ensures Total(rs[i := r], w) == Total(rs, w) - w(rs[i]) + w(r)
    ensures Total(rs, w) >= w(rs[i])
  {
    var n := |rs| - 1;
    if i == n {
      assert rs[i := r][..n] == rs[..n];
    } else {
      TotalUpdate(rs[..n], i, r, w);
      assert rs[i := r][..n] == rs[..n][i := r];
    }
  }

  lemma TotalAppend(rs: seq<Reader>, r: Reader, w: Reader -> nat)
    ensures Total(rs + [r], w) == Total(rs, w) + w(r)
  {
    assert (rs + [r])[..|rs|] == rs;
  }

  lemma {:induction false} TotalPositive(rs: seq<Reader>, w: Reader -> nat)
    requires Total(rs, w) > 0
    ensures exists i :: 0 <= i < |rs| && w(rs[i]) > 0
  {
    var n := |rs| - 1;
    if w(rs[n]) == 0 {
      TotalPositive(rs[..n], w);
      var i :| 0 <= i < n && w(rs[..n][i]) > 0;
      assert w(rs[i]) > 0;
    }
  }

  ghost function Bag(rs: seq<Reader>, g: Reader -> multiset<File>): multiset<File> {
    if rs == [] then multiset{} else Bag(rs[..|rs| - 1], g) + g(rs[|rs| - 1])
  }

  lemma Shift(a: multiset<File>, x: multiset<File>, b: multiset<File>, y: multiset<File>, more: multiset<File>)
    requires a + x == b + y
    ensures a + more + x == b + more + y
  {
    assert a + more + x == a + x + more;
    assert b + more + y == b + y + more;
  }

  lemma {:induction false} BagUpdate(rs: seq<Reader>, i: nat, r: Reader, g: Reader -> multiset<File>)
    requires i < |rs|
    ensures Bag(rs[i := r], g) + g(rs[i]) == Bag(rs, g) + g(r)
  {
    var n := |rs| - 1;
    if i == n {
      assert rs[i := r][..n] == rs[..n];
    } else {
      BagUpdate(rs[..n], i, r, g);
      assert rs[i := r][..n] == rs[..n][i := r];
      Shift(Bag(rs[i := r][..n], g), g(rs[i]), Bag(rs[..n], g), g(r), g(rs[n]));
    }
  }

  lemma BagAppend(rs: seq<Reader>, r: Reader, g: Reader -> multiset<File>)
    ensures Bag(rs + [r], g) == Bag(rs, g) + g(r)
  {
    assert (rs + [r])[..|rs|] == rs;
  }

  lemma {:induction false} BagHas(rs: seq<Reader>, i: nat, g: Reader -> multiset<File>)
    requires i < |rs|
    ensures g(rs[i]) <= Bag(rs, g)
  {
    if i < |rs| - 1 {
      BagHas(rs[..|rs| - 1], i, g);
    }
  }

  // The tokens and the wait group.

  ghost function Holds(r: Reader): nat {
    if r.phase == Reading || r.phase == Releasing then 1 else 0
  }

  ghost function Unfinished(r: Reader): nat {
    if r.phase == Finished then 0 else 1
  }

  ghost function Awaiting(r: Reader): nat {
    if r.phase.Waiting? then 1 else 0
  }

  ghost function RootWaits(s: Scheduler): nat {
    if s.WaitRoot? then 1 else 0
  }

  /** Every token is in the pool or with one reader; the wait group counts the readers that are not finished and
      those announced but not started. */
  ghost predicate Counted(env: Env, s: State) {
    && s.pool + Total(s.readers, Holds) == env.tokens
    && s.group == Total(s.readers, Unfinished) + Total(s.readers, Awaiting) + RootWaits(s.scheduler)
  }

  lemma CountedKept(env: Env, s: State, st: Step)
    requires Counted(env, s) && Enabled(env, s, st)
    ensures Counted(env, Apply(env, s, st))
  {
    hide Total;
    match st
    case StartRoot =>
      Appended(s.readers, env.roots[s.scheduler.i]);
    case Send(r) => Totals(s, r, Releasing);
    case Release(r) => Totals(s, r, AtDep(0));
    case Look(r) => LookKept(env, s, r);
    case Add(r) => Totals(s, r, Waiting(s.readers[r].phase.i));
    case StartDep(r) => StartDepKept(env, s, r);
    case Finish(r) => Totals(s, r, Finished);
    case _ =>
  }

  lemma Appended(rs: seq<Reader>, f: File)
    ensures var more := rs + [Reader(f, Reading)];
            && Total(more, Holds) == Total(rs, Holds) + 1
            && Total(more, Unfinished) == Total(rs, Unfinished) + 1
            && Total(more, Awaiting) == Total(rs, Awaiting)
  {
    hide Total;
    TotalAppend(rs, Reader(f, Reading), Holds);
    TotalAppend(rs, Reader(f, Reading), Unfinished);
    TotalAppend(rs, Reader(f, Reading), Awaiting);
  }

  lemma LookKept(env: Env, s: State, r: nat)
    requires Counted(env, s) && Enabled(env, s, Look(r))
    ensures Counted(env, Apply(env, s, Look(r)))
  {
    hide Total;
    Totals(s, r, AtDep(s.readers[r].phase.i + 1));
    Totals(s, r, Adding(s.readers[r].phase.i));
  }

  lemma StartDepKept(env: Env, s: State, r: nat)
    requires Counted(env, s) && Enabled(env, s, StartDep(r))
    ensures Counted(env, Apply(env, s, StartDep(r)))
  {
    hide Total;
    var i := s.readers[r].phase.i;
    Totals(s, r, AtDep(i + 1));
    Appended(Moved(s, r, AtDep(i + 1)), env.deps(s.readers[r].file)[i]);
  }

  lemma Totals(s: State, r: nat, p: Phase)
    requires r < |s.readers|
    ensures var r0, r1 := s.readers[r], s.readers[r].(phase := p);
            && Total(Moved(s, r, p), Holds) == Total(s.readers, Holds) - Holds(r0) + Holds(r1)
            && Total(Moved(s, r, p), Unfinished) == Total(s.readers, Unfinished) - Unfinished(r0) + Unfinished(r1)
            && Total(Moved(s, r, p), Awaiting) == Total(s.readers, Awaiting) - Awaiting(r0) + Awaiting(r1)
  {
    var r1 := s.readers[r].(phase := p);
    TotalUpdate(s.readers, r, r1, Holds);
    TotalUpdate(s.readers, r, r1, Unfinished);
    TotalUpdate(s.readers, r, r1, Awaiting);
  }

  // Who is claimed by whom.

  ghost function FileOf(r: Reader): multiset<File> {
    multiset{r.file}
  }

  /** The dependency a reader has marked as scheduled and not started yet. */
  ghost function PendingOf(env: Env): Reader -> multiset<File> {
    (r: Reader) =>
      if (r.phase.Adding? || r.phase.Waiting?) && r.phase.i < |env.deps(r.file)|
      then multiset{env.deps(r.file)[r.phase.i]} else multiset{}
  }

  ghost function SentOf(r: Reader): multiset<File> {
    if r.phase == Reading then multiset{} else multiset{r.file}
  }

  ghost function RootsLeft(env: Env, s: Scheduler): multiset<File> {
    if (s.AtRoot? || s.WaitRoot?) && s.i <= |env.roots| then multiset(env.roots[s.i..]) else multiset{}
  }

  /** The files that are being read, have been read or are about to be. */
  ghost function Claims(env: Env, s: State): multiset<File> {
    Bag(s.readers, FileOf) + Bag(s.readers, PendingOf(env)) + RootsLeft(env, s.scheduler)
  }

  ghost predicate Bounded(env: Env, s: State) {
    && (s.scheduler.AtRoot? ==> s.scheduler.i <= |env.roots|)
    && (s.scheduler.WaitRoot? ==> s.scheduler.i < |env.roots|)
    && (forall r :: 0 <= r < |s.readers| ==>
          var p, n := s.readers[r].phase, |env.deps(s.readers[r].file)|;
          (p.AtDep? ==> p.i <= n) && (p.Adding? || p.Waiting? ==> p.i < n))
  }

  lemma BoundedKept(env: Env, s: State, st: Step)
    requires Bounded(env, s) && Enabled(env, s, st)
    ensures Bounded(env, Apply(env, s, st))
  {
  }

  /** Every scheduled file is claimed, and by one goroutine only. */
  ghost predicate ClaimedOnce(env: Env, s: State) {
    Claims(env, s) == multiset(s.targets)
  }

  ghost predicate DistinctRoots(env: Env) {
    forall i, j :: 0 <= i < j < |env.roots| ==> env.roots[i] != env.roots[j]
  }

  lemma {:induction false} DistinctBag(q: seq<File>)
    requires forall i, j :: 0 <= i < j < |q| ==> q[i] != q[j]
    ensures multiset(q) == multiset(set f | f in q)
  {
    if q != [] {
      var init, last := q[..|q| - 1], q[|q| - 1];
      DistinctBag(init);
      assert q == init + [last];
      assert (set f | f in q) == (set f | f in init) + {last};
      assert last !in init;
    }
  }

  lemma RootsBag(env: Env)
    requires DistinctRoots(env)
    ensures multiset(env.roots) == multiset(RootSet(env)) && env.roots[0..] == env.roots
  {
    DistinctBag(env.roots);
  }

  lemma RootsNext(env: Env, i: nat)
    requires i < |env.roots|
    ensures multiset(env.roots[i..]) == multiset{env.roots[i]} + multiset(env.roots[i + 1..])
  {
    assert env.roots[i..] == [env.roots[i]] + env.roots[i + 1..];
  }

  /** What a reader's own step does to the claims. */
  lemma ClaimsMoved(env: Env, s: State, r: nat, p: Phase)
    requires r < |s.readers|
    ensures var r0, r1 := s.readers[r], s.readers[r].(phase := p);
            && Bag(Moved(s, r, p), FileOf) == Bag(s.readers, FileOf)
            && Bag(Moved(s, r, p), PendingOf(env)) + PendingOf(env)(r0) == Bag(s.readers, PendingOf(env)) + PendingOf(env)(r1)
  {
    var r1 := s.readers[r].(phase := p);
    BagUpdate(s.readers, r, r1, FileOf);
    BagUpdate(s.readers, r, r1, PendingOf(env));
    Cancel(Bag(Moved(s, r, p), FileOf), Bag(s.readers, FileOf), FileOf(r1));
  }

  lemma Cancel(a: multiset<File>, b: multiset<File>, x: multiset<File>)
    requires a + x == b + x
    ensures a == b
  {
    forall f ensures a[f] == b[f] {
      assert (a + x)[f] == (b + x)[f];
    }
  }

  lemma ClaimsStarted(env: Env, rs: seq<Reader>, f: File)
    ensures Bag(rs + [Reader(f, Reading)], FileOf) == Bag(rs, FileOf) + multiset{f}
    ensures Bag(rs + [Reader(f, Reading)], PendingOf(env)) == Bag(rs, PendingOf(env))
  {
    BagAppend(rs, Reader(f, Reading), FileOf);
    BagAppend(rs, Reader(f, Reading), PendingOf(env));
  }

  lemma AddOne(targets: set<File>, d: File)
    requires d !in targets
    ensures multiset(targets + {d}) == multiset(targets) + multiset{d}
  {
  }

  /** A step within one phase of the work changes no claim. */
  lemma QuietMove(env: Env, s: State, r: nat, p: Phase)
    requires r < |s.readers|
    requires PendingOf(env)(s.readers[r]) == PendingOf(env)(s.readers[r].(phase := p))
    ensures Bag(Moved(s, r, p), FileOf) == Bag(s.readers, FileOf)
    ensures Bag(Moved(s, r, p), PendingOf(env)) == Bag(s.readers, PendingOf(env))
  {
    hide Bag, PendingOf;
    ClaimsMoved(env, s, r, p);
    Cancel(Bag(Moved(s, r, p), PendingOf(env)), Bag(s.readers, PendingOf(env)), PendingOf(env)(s.readers[r]));
  }

  lemma PendingNone(env: Env, r: Reader)
    requires !r.phase.Adding? && !r.phase.Waiting?
    ensures PendingOf(env)(r) == multiset{}
  {
  }

  lemma PendingOne(env: Env, r: Reader)
    requires (r.phase.Adding? || r.phase.Waiting?) && r.phase.i < |env.deps(r.file)|
    ensures PendingOf(env)(r) == multiset{env.deps(r.file)[r.phase.i]}
  {
  }

  lemma SumMore(f: multiset<File>, p: multiset<File>, q: multiset<File>, l: multiset<File>, d: File)
    requires q == p + multiset{d}
    ensures f + q + l == f + p + l + multiset{d}
  {
  }

  lemma SumMoved(f: multiset<File>, p: multiset<File>, q: multiset<File>, l: multiset<File>, d: File)
    requires p == q + multiset{d}
    ensures f + multiset{d} + q + l == f + p + l
  {
  }

  lemma LookClaims(env: Env, s: State, r: nat)
    requires ClaimedOnce(env, s) && Bounded(env, s) && Enabled(env, s, Look(r))
    ensures ClaimedOnce(env, Apply(env, s, Look(r)))
  {
    hide Bag, PendingOf, RootsLeft;
    var r0, i := s.readers[r], s.readers[r].phase.i;
    var d := env.deps(r0.file)[i];
    PendingNone(env, r0);
    PendingNone(env, r0.(phase := AtDep(i + 1)));
    PendingOne(env, r0.(phase := Adding(i)));
    if d in s.targets {
      QuietMove(env, s, r, AtDep(i + 1));
    } else {
      ClaimsMoved(env, s, r, Adding(i));
      Plain(Bag(Moved(s, r, Adding(i)), PendingOf(env)));
      AddOne(s.targets, d);
      SumMore(Bag(s.readers, FileOf), Bag(s.readers, PendingOf(env)), Bag(Moved(s, r, Adding(i)), PendingOf(env)),
              RootsLeft(env, s.scheduler), d);
    }
  }

  lemma Plain(a: multiset<File>)
    ensures a + multiset{} == a
  {
  }

  lemma StartDepClaims(env: Env, s: State, r: nat)
    requires ClaimedOnce(env, s) && Bounded(env, s) && Enabled(env, s, StartDep(r))
    ensures ClaimedOnce(env, Apply(env, s, StartDep(r)))
  {
    hide Bag, PendingOf, RootsLeft;
    var r0, i := s.readers[r], s.readers[r].phase.i;
    var d := env.deps(r0.file)[i];
    var moved := Moved(s, r, AtDep(i + 1));
    PendingOne(env, r0);
    PendingNone(env, r0.(phase := AtDep(i + 1)));
    ClaimsMoved(env, s, r, AtDep(i + 1));
    ClaimsStarted(env, moved, d);
    Plain(Bag(s.readers, PendingOf(env)));
    SumMoved(Bag(s.readers, FileOf), Bag(s.readers, PendingOf(env)), Bag(moved, PendingOf(env)), RootsLeft(env, s.scheduler), d);
  }

  lemma StartRootClaims(env: Env, s: State)
    requires ClaimedOnce(env, s) && Bounded(env, s) && Enabled(env, s, StartRoot)
    ensures ClaimedOnce(env, Apply(env, s, StartRoot))
  {
    hide Bag, PendingOf;
    var f := env.roots[s.scheduler.i];
    RootsNext(env, s.scheduler.i);
    ClaimsStarted(env, s.readers, f);
    var a, b, l := Bag(s.readers, FileOf), Bag(s.readers, PendingOf(env)), multiset(env.roots[s.scheduler.i + 1..]);
    assert a + multiset{f} + b + l == a + b + (multiset{f} + l);
  }

  lemma ClaimedKept(env: Env, s: State, st: Step)
    requires ClaimedOnce(env, s) && Bounded(env, s) && DistinctRoots(env) && Enabled(env, s, st)
    requires s.scheduler == Start ==> s.readers == []
    ensures ClaimedOnce(env, Apply(env, s, st))
  {
    match st
    case StartRoot => StartRootClaims(env, s);
    case Look(r) => LookClaims(env, s, r);
    case StartDep(r) => StartDepClaims(env, s, r);
    case _ => OtherClaims(env, s, st);
  }

  lemma OtherClaims(env: Env, s: State, st: Step)
    requires ClaimedOnce(env, s) && Bounded(env, s) && DistinctRoots(env) && Enabled(env, s, st)
    requires s.scheduler == Start ==> s.readers == []
    requires !st.StartRoot? && !st.Look? && !st.StartDep?
    ensures ClaimedOnce(env, Apply(env, s, st))
  {
    hide Bag, PendingOf, FileOf;
    match st
    case MarkRoots =>
      RootsBag(env);
      NoBag(env);
    case Send(r) => Quiet(env, s, r, Releasing);
    case Release(r) => Quiet(env, s, r, AtDep(0));
    case Add(r) =>
      PendingOne(env, s.readers[r]);
      PendingOne(env, s.readers[r].(phase := Waiting(s.readers[r].phase.i)));
      QuietMove(env, s, r, Waiting(s.readers[r].phase.i));
    case Finish(r) => Quiet(env, s, r, Finished);
    case _ =>
  }

  lemma Quiet(env: Env, s: State, r: nat, p: Phase)
    requires r < |s.readers| && !p.Adding? && !p.Waiting? && !s.readers[r].phase.Adding? && !s.readers[r].phase.Waiting?
    ensures Bag(Moved(s, r, p), FileOf) == Bag(s.readers, FileOf)
    ensures Bag(Moved(s, r, p), PendingOf(env)) == Bag(s.readers, PendingOf(env))
  {
    PendingNone(env, s.readers[r]);
    PendingNone(env, s.readers[r].(phase := p));
    QuietMove(env, s, r, p);
  }

  lemma NoBag(env: Env)
    ensures Bag([], FileOf) == multiset{} == Bag([], PendingOf(env))
  {
  }

  // Results.

  /** Each file past its reading has one result, in the channel or taken out. */
  ghost predicate SentOnce(s: State) {
    Bag(s.readers, SentOf) == multiset(s.results) + multiset(s.received)
  }

  lemma {:induction false} BagBelow(rs: seq<Reader>, g: Reader -> multiset<File>, h: Reader -> multiset<File>)
    requires forall r :: g(r) <= h(r)
    ensures Bag(rs, g) <= Bag(rs, h)
  {
    if rs != [] {
      BagBelow(rs[..|rs| - 1], g, h);
    }
  }

  /** A file has at most one result. */
  lemma ResultOnce(env: Env, s: State, f: File)
    requires ClaimedOnce(env, s) && SentOnce(s) && f in s.results
    ensures f !in s.received && multiset(s.results)[f] == 1 && f in s.targets
  {
    BagBelow(s.readers, SentOf, FileOf);
    assert f in multiset(s.results);
    var m := Bag(s.readers, SentOf);
    assert m[f] <= Claims(env, s)[f] == multiset(s.targets)[f] <= 1;
    assert m[f] == multiset(s.results)[f] + multiset(s.received)[f];
  }

  lemma SentMoved(s: State, r: nat, p: Phase)
    requires r < |s.readers|
    ensures Bag(Moved(s, r, p), SentOf) + SentOf(s.readers[r]) == Bag(s.readers, SentOf) + SentOf(s.readers[r].(phase := p))
    ensures s.readers[r].phase != Reading && p != Reading ==> Bag(Moved(s, r, p), SentOf) == Bag(s.readers, SentOf)
  {
    BagUpdate(s.readers, r, s.readers[r].(phase := p), SentOf);
    if s.readers[r].phase != Reading && p != Reading {
      Cancel(Bag(Moved(s, r, p), SentOf), Bag(s.readers, SentOf), multiset{s.readers[r].file});
    }
  }

  lemma SendOnce(env: Env, s: State, r: nat)
    requires SentOnce(s) && Enabled(env, s, Send(r))
    ensures SentOnce(Apply(env, s, Send(r)))
  {
    hide Bag;
    var f := s.readers[r].file;
    SentMoved(s, r, Releasing);
    Plain(Bag(Moved(s, r, Releasing), SentOf));
    var a, b := multiset(s.results), multiset(s.received);
    assert multiset(s.results + [f]) == a + multiset{f};
    assert a + multiset{f} + b == a + b + multiset{f};
  }

  lemma StartDepSent(env: Env, s: State, r: nat)
    requires SentOnce(s) && Enabled(env, s, StartDep(r))
    ensures SentOnce(Apply(env, s, StartDep(r)))
  {
    hide Bag;
    var i := s.readers[r].phase.i;
    SentMoved(s, r, AtDep(i + 1));
    BagAppend(Moved(s, r, AtDep(i + 1)), Reader(env.deps(s.readers[r].file)[i], Reading), SentOf);
    Plain(Bag(Moved(s, r, AtDep(i + 1)), SentOf));
  }

  lemma ReceiveOnce(env: Env, s: State)
    requires SentOnce(s) && ClaimedOnce(env, s) && Enabled(env, s, Receive)
    ensures SentOnce(Apply(env, s, Receive))
  {
    hide Bag, ClaimedOnce;
    var f, rest := s.results[0], s.results[1..];
    ResultOnce(env, s, f);
    assert s.results == [f] + rest;
    AddOne(s.received, f);
    var a, b := multiset(rest), multiset(s.received);
    assert multiset{f} + a + b == a + (b + multiset{f});
  }

  lemma SentKept(env: Env, s: State, st: Step)
    requires SentOnce(s) && ClaimedOnce(env, s) && Enabled(env, s, st)
    ensures SentOnce(Apply(env, s, st))
  {
    hide Bag, ClaimedOnce;
    match st
    case StartRoot => BagAppend(s.readers, Reader(env.roots[s.scheduler.i], Reading), SentOf);
    case Send(r) => SendOnce(env, s, r);
    case Release(r) => SentMoved(s, r, AtDep(0));
    case Look(r) =>
      SentMoved(s, r, AtDep(s.readers[r].phase.i + 1));
      SentMoved(s, r, Adding(s.readers[r].phase.i));
    case Add(r) => SentMoved(s, r, Waiting(s.readers[r].phase.i));
    case StartDep(r) => StartDepSent(env, s, r);
    case Finish(r) => SentMoved(s, r, Finished);
    case Receive => ReceiveOnce(env, s);
    case _ =>
  }

  // What has been scheduled.

  /** How many of its dependencies a reader has looked at. */
  ghost function Looked(env: Env, r: Reader): nat {
    match r.phase
    case AtDep(i) => i
    case Adding(i) => i + 1
    case Waiting(i) => i + 1
    case Finished => |env.deps(r.file)|
    case _ => 0
  }

  /** Roots and dependencies that have been looked at are scheduled. */
  ghost predicate Covered(env: Env, s: State) {
    && (if s.scheduler == Start then s.readers == [] && s.targets == {} else RootSet(env) <= s.targets)
    && forall r, k :: 0 <= r < |s.readers| && 0 <= k < Looked(env, s.readers[r]) && k < |env.deps(s.readers[r].file)| ==>
         env.deps(s.readers[r].file)[k] in s.targets
  }

  lemma CoveredKept(env: Env, s: State, st: Step)
    requires Covered(env, s) && Bounded(env, s) && Enabled(env, s, st)
    ensures Covered(env, Apply(env, s, st))
  {
    hide Bounded;
  }

  ghost predicate IsPath(env: Env, p: seq<File>) {
    && p != [] && p[0] in env.roots
    && forall k :: 0 < k < |p| ==> p[k] in env.deps(p[k - 1])
  }

  ghost predicate Reachable(env: Env, f: File) {
    exists p :: IsPath(env, p) && p[|p| - 1] == f
  }

  lemma ReachRoot(env: Env, f: File)
    requires f in env.roots
    ensures Reachable(env, f)
  {
    assert IsPath(env, [f]);
  }

  lemma ReachDep(env: Env, f: File, d: File)
    requires Reachable(env, f) && d in env.deps(f)
    ensures Reachable(env, d)
  {
    var p :| IsPath(env, p) && p[|p| - 1] == f;
    var q := p + [d];
    forall k | 0 < k < |q| ensures q[k] in env.deps(q[k - 1]) {
      if k < |p| { assert p[k] in env.deps(p[k - 1]); }
    }
    assert IsPath(env, q) && q[|q| - 1] == d;
  }

  /** Nothing is scheduled without need. */
  ghost predicate OnlyReachable(env: Env, s: State) {
    && (forall f :: f in s.targets ==> Reachable(env, f))
    && (forall r :: 0 <= r < |s.readers| ==> Reachable(env, s.readers[r].file))
  }

  lemma OnlyReachableKept(env: Env, s: State, st: Step)
    requires OnlyReachable(env, s) && Enabled(env, s, st)
    ensures OnlyReachable(env, Apply(env, s, st))
  {
    hide Reachable;
    match st
    case MarkRoots =>
      forall f | f in RootSet(env) ensures Reachable(env, f) { ReachRoot(env, f); }
    case StartRoot => ReachRoot(env, env.roots[s.scheduler.i]);
    case Look(r) =>
      var f := s.readers[r].file;
      ReachDep(env, f, env.deps(f)[s.readers[r].phase.i]);
    case StartDep(r) =>
      var f := s.readers[r].file;
      ReachDep(env, f, env.deps(f)[s.readers[r].phase.i]);
    case _ =>
  }

  // Closing the channels.

  ghost predicate AllFinished(s: State) {
    forall r :: 0 <= r < |s.readers| ==> s.readers[r].phase == Finished
  }

  /** The channels are closed only when nobody is left who could use them. */
  ghost predicate ClosedLast(s: State) {
    && (s.closer != NotStarted <==> s.scheduler == Scheduled)
    && (s.closer == TaskClosed || s.closer == AllClosed ==> s.group == 0 && AllFinished(s))
    && (s.done ==> s.closer == AllClosed && s.results == [])
  }

  lemma NobodyLeft(s: State)
    requires Total(s.readers, Unfinished) == 0
    ensures AllFinished(s)
  {
    forall r | 0 <= r < |s.readers| ensures s.readers[r].phase == Finished {
      TotalUpdate(s.readers, r, s.readers[r], Unfinished);
    }
  }

  lemma ClosedKept(env: Env, s: State, st: Step)
    requires ClosedLast(s) && Counted(env, s) && Enabled(env, s, st)
    ensures ClosedLast(Apply(env, s, st))
  {
    hide Total;
    if st == CloseTask {
      NobodyLeft(s);
    }
  }

  // All together.

  ghost predicate Inv(env: Env, s: State) {
    && Counted(env, s) && Bounded(env, s) && ClaimedOnce(env, s) && SentOnce(s)
    && Covered(env, s) && OnlyReachable(env, s) && ClosedLast(s)
  }

  lemma InvInitial(env: Env)
    ensures Inv(env, Initial(env))
  {
  }

  /** Every step of every goroutine keeps the invariant. */
  lemma InvKept(env: Env, s: State, st: Step)
    requires Inv(env, s) && DistinctRoots(env) && Enabled(env, s, st)
    ensures Inv(env, Apply(env, s, st))
  {
    hide Counted, Bounded, ClaimedOnce, SentOnce, OnlyReachable, ClosedLast, Enabled, Apply;
    CountedKept(env, s, st);
    BoundedKept(env, s, st);
    ClaimedKept(env, s, st);
    SentKept(env, s, st);
    CoveredKept(env, s, st);
    OnlyReachableKept(env, s, st);
    ClosedKept(env, s, st);
  }

  /** Every state of every run is good. */
  lemma {:induction false} InvRun(env: Env, run: seq<State>, k: nat)
    requires IsRun(env, run) && DistinctRoots(env) && k < |run|
    ensures Inv(env, run[k])
  {
    hide Inv, Enabled, Apply, Initial;
    if k == 0 {
      InvInitial(env);
    } else {
      InvRun(env, run, k - 1);
      assert Successor(env, run[k - 1], run[k]);
      var st :| Enabled(env, run[k - 1], st) && run[k] == Apply(env, run[k - 1], st);
      InvKept(env, run[k - 1], st);
    }
  }

  // What the invariant gives.

  /** At most as many files are open as there are tokens, and a token can always be given back at once. */
  lemma TokensSuffice(env: Env, s: State)
    requires Inv(env, s)
    ensures Total(s.readers, Holds) <= env.tokens
    ensures forall r :: Is(s, r, Releasing) ==> s.pool < env.tokens && Enabled(env, s, Release(r))
  {
    hide Total;
    forall r: nat | Is(s, r, Releasing) ensures s.pool < env.tokens {
      TotalUpdate(s.readers, r, s.readers[r], Holds);
    }
  }

  /** The steps that use the token pool or send on the results channel. */
  ghost predicate UsesChannels(st: Step) {
    st.StartRoot? || st.StartDep? || st.Send? || st.Release?
  }

  /** Once the closer has begun, no goroutine will use a channel any more. */
  lemma NoUseAfterClose(env: Env, s: State, st: Step)
    requires Inv(env, s) && (s.closer == TaskClosed || s.closer == AllClosed) && Enabled(env, s, st)
    ensures !UsesChannels(st) && AllFinished(s)
  {
    hide Counted, ClaimedOnce, SentOnce, Covered, OnlyReachable;
  }

  lemma SomeHolder(env: Env, s: State) returns (r: nat)
    requires Counted(env, s) && s.pool < env.tokens
    ensures Is(s, r, Reading) || Is(s, r, Releasing)
  {
    hide Total;
    TotalPositive(s.readers, Holds);
    r :| r < |s.readers| && Holds(s.readers[r]) > 0;
  }

  /** Somebody who holds a token can go on when the results channel is empty. */
  lemma HolderMoves(env: Env, s: State) returns (st: Step)
    requires Inv(env, s) && env.tokens > 0 && s.pool == 0 && s.results == []
    ensures Enabled(env, s, st)
  {
    hide Total, ClaimedOnce, SentOnce, Covered, OnlyReachable, ClosedLast, Bounded;
    var r := SomeHolder(env, s);
    st := if s.readers[r].phase == Reading then Send(r) else Release(r);
  }

  lemma ReaderMoves(env: Env, s: State, r: nat) returns (st: Step)
    requires Inv(env, s) && env.tokens > 0 && s.results == [] && r < |s.readers| && s.readers[r].phase != Finished
    ensures Enabled(env, s, st)
  {
    hide Total, ClaimedOnce, SentOnce, Covered, OnlyReachable, ClosedLast;
    match s.readers[r].phase
    case Reading => st := Send(r);
    case Releasing =>
      TokensSuffice(env, s);
      assert Is(s, r, Releasing);
      st := Release(r);
    case AtDep(i) => st := if InDep(env, s, r) then Look(r) else Finish(r);
    case Adding(i) => st := Add(r);
    case Waiting(i) =>
      if s.pool > 0 {
        st := StartDep(r);
      } else {
        st := HolderMoves(env, s);
      }
  }

  /** Until the results loop has ended there is always something that can be done, although readers wait for tokens
      while they schedule their dependencies. */
  lemma NeverStuck(env: Env, s: State) returns (st: Step)
    requires Inv(env, s) && env.tokens > 0 && !s.done
    ensures Enabled(env, s, st)
  {
    hide Total, ClaimedOnce, SentOnce, Covered, OnlyReachable;
    if s.results != [] {
      st := Receive;
    } else if s.scheduler == Start {
      st := MarkRoots;
    } else if s.scheduler.AtRoot? {
      st := if s.scheduler.i < |env.roots| then AddRoot else EndSchedule;
    } else if s.scheduler.WaitRoot? {
      if s.pool > 0 {
        st := StartRoot;
      } else {
        st := HolderMoves(env, s);
      }
    } else if s.closer == AllClosed {
      st := Leave;
    } else if s.closer == TaskClosed {
      st := CloseResults;
    } else if r :| 0 <= r < |s.readers| && s.readers[r].phase != Finished {
      st := ReaderMoves(env, s, r);
    } else {
      NobodyCounted(s.readers);
      st := CloseTask;
    }
  }

  lemma {:induction false} NobodyCounted(rs: seq<Reader>)
    requires forall r :: 0 <= r < |rs| ==> rs[r].phase == Finished
    ensures Total(rs, Unfinished) == 0 == Total(rs, Awaiting)
  {
    if rs != [] {
      NobodyCounted(rs[..|rs| - 1]);
    }
  }

  lemma {:induction false} BagSame(rs: seq<Reader>, g: Reader -> multiset<File>, h: Reader -> multiset<File>)
    requires forall i :: 0 <= i < |rs| ==> g(rs[i]) == h(rs[i])
    ensures Bag(rs, g) == Bag(rs, h)
  {
    if rs != [] {
      BagSame(rs[..|rs| - 1], g, h);
    }
  }

  ghost function Nothing(r: Reader): multiset<File> {
    multiset{}
  }

  lemma {:induction false} BagNothing(rs: seq<Reader>)
    ensures Bag(rs, Nothing) == multiset{}
  {
    if rs != [] {
      BagNothing(rs[..|rs| - 1]);
    }
  }

  lemma NothingLeft(env: Env, s: State)
    requires ClosedLast(s) && s.done
    ensures s.results == [] && RootsLeft(env, s.scheduler) == multiset{}
    ensures Bag(s.readers, SentOf) == Bag(s.readers, FileOf) && Bag(s.readers, PendingOf(env)) == multiset{}
  {
    hide Bag;
    BagSame(s.readers, SentOf, FileOf);
    BagSame(s.readers, PendingOf(env), Nothing);
    BagNothing(s.readers);
  }

  /** When the loop has ended, each scheduled file has been read by one reader and its result received. */
  lemma AllReceived(env: Env, s: State)
    requires Inv(env, s) && s.done
    ensures s.received == s.targets && Bag(s.readers, FileOf) == multiset(s.targets)
  {
    hide Bag, Counted, Bounded, Covered, OnlyReachable, ClosedLast, RootsLeft;
    NothingLeft(env, s);
    SameSets(s.received, s.targets);
  }

  lemma SameSets<T>(a: set<T>, b: set<T>)
    requires multiset(a) == multiset(b)
    ensures a == b
  {
    forall x ensures x in a <==> x in b {
      assert multiset(a)[x] == multiset(b)[x];
    }
  }

  lemma {:induction false} BagMember(rs: seq<Reader>, f: File)
    requires f in Bag(rs, FileOf)
    ensures exists i :: 0 <= i < |rs| && rs[i].file == f
  {
    var n := |rs| - 1;
    if rs[n].file != f {
      BagMember(rs[..n], f);
      var i :| 0 <= i < n && rs[..n][i].file == f;
      assert rs[i].file == f;
    }
  }

  /** The scheduled files are closed under dependencies when the loop has ended. */
  lemma DepsReceived(env: Env, s: State, f: File, d: File)
    requires Inv(env, s) && s.done && f in s.targets && d in env.deps(f)
    ensures d in s.targets
  {
    hide Bag, Counted, ClaimedOnce, SentOnce, OnlyReachable;
    AllReceived(env, s);
    assert f in multiset(s.targets);
    BagMember(s.readers, f);
    var r :| 0 <= r < |s.readers| && s.readers[r].file == f;
    assert s.readers[r].phase == Finished;
    var k :| 0 <= k < |env.deps(f)| && env.deps(f)[k] == d;
    assert k < Looked(env, s.readers[r]);
  }

  lemma {:induction false} PathReceived(env: Env, s: State, p: seq<File>, k: nat)
    requires Inv(env, s) && s.done && IsPath(env, p) && k < |p|
    ensures p[k] in s.targets
  {
    hide Counted, Bounded, ClaimedOnce, SentOnce, OnlyReachable;
    if k == 0 {
      assert p[0] in RootSet(env);
    } else {
      PathReceived(env, s, p, k - 1);
      assert p[k] in env.deps(p[k - 1]);
      DepsReceived(env, s, p[k - 1], p[k]);
    }
  }

  /** How often a file has been read. */
  ghost function ReadCount(s: State, f: File): nat {
    Bag(s.readers, FileOf)[f]
  }

  /** In every run that ends, exactly the files reachable from the roots are in the graph, each read once and received. */
  lemma Complete(env: Env, run: seq<State>)
    requires IsRun(env, run) && DistinctRoots(env) && run[|run| - 1].done
    ensures var s := run[|run| - 1];
            && (forall f :: f in s.targets <==> Reachable(env, f)) && s.received == s.targets
            && (forall f :: ReadCount(s, f) == if Reachable(env, f) then 1 else 0)
  {
    hide Inv, Bag, Reachable;
    var s := run[|run| - 1];
    InvRun(env, run, |run| - 1);
    AllReceived(env, s);
    forall f ensures f in s.targets <==> Reachable(env, f) {
      ReachedReceived(env, s, f);
    }
  }

  lemma ReachedReceived(env: Env, s: State, f: File)
    requires Inv(env, s) && s.done
    ensures f in s.targets <==> Reachable(env, f)
  {
    hide Counted, Bounded, ClaimedOnce, SentOnce, Covered, ClosedLast;
    if Reachable(env, f) {
      var p :| IsPath(env, p) && p[|p| - 1] == f;
      PathReceived(env, s, p, |p| - 1);
    }
  }

  // Every run comes to an end.

  ghost predicate Universe(env: Env, all: set<File>) {
    RootSet(env) <= all && forall f, k :: f in all && 0 <= k < |env.deps(f)| ==> env.deps(f)[k] in all
  }

  /** What a reader still has to do. */
  ghost function Work(env: Env, r: Reader): nat {
    var n := 3 * |env.deps(r.file)|;
    match r.phase
    case Reading => n + 4
    case Releasing => n + 2
    case AtDep(i) => if 3 * i <= n then n - 3 * i + 1 else 0
    case Adding(i) => if 3 * i < n then n - 3 * i else 0
    case Waiting(i) => if 3 * i < n then n - 3 * i - 1 else 0
    case Finished => 0
  }

  ghost function WorkOf(env: Env): Reader -> nat {
    (r: Reader) => Work(env, r)
  }

  ghost function Started(rs: seq<Reader>): set<File> {
    set r | r in rs :: r.file
  }

  ghost function Ahead(env: Env, all: set<File>, started: set<File>): map<File, nat> {
    map f | f in all && f !in started :: Work(env, Reader(f, Reading))
  }

  ghost function SchedulerWork(env: Env, s: Scheduler): nat {
    var n := 2 * |env.roots|;
    match s
    case Start => n + 2
    case AtRoot(i) => if 2 * i <= n then n - 2 * i + 1 else 0
    case WaitRoot(i) => if 2 * i < n then n - 2 * i else 0
    case Scheduled => 0
  }

  ghost function CloserWork(c: Closer): nat {
    match c
    case TaskClosed => 1
    case AllClosed => 0
    case _ => 2
  }

  /** How many steps are left at most. */
  ghost function Measure(env: Env, all: set<File>, s: State): nat {
    Sum(Ahead(env, all, Started(s.readers))) + Total(s.readers, WorkOf(env)) + |s.results|
    + SchedulerWork(env, s.scheduler) + CloserWork(s.closer) + (if s.done then 0 else 1)
  }

  lemma StartedMoved(s: State, r: nat, p: Phase)
    requires r < |s.readers|
    ensures Started(Moved(s, r, p)) == Started(s.readers)
  {
    var a, b := s.readers, Moved(s, r, p);
    forall f ensures f in Started(a) <==> f in Started(b) {
      if x :| x in a && x.file == f {
        var i :| 0 <= i < |a| && a[i] == x;
        assert b[i] in b && b[i].file == f;
      }
      if x :| x in b && x.file == f {
        var i :| 0 <= i < |b| && b[i] == x;
        assert a[i] in a && a[i].file == f;
      }
    }
  }

  /** A reader's own step takes its share off. */
  lemma OwnWork(env: Env, all: set<File>, s: State, r: nat, p: Phase)
    requires r < |s.readers|
    ensures Total(Moved(s, r, p), WorkOf(env)) == Total(s.readers, WorkOf(env)) - Work(env, s.readers[r]) + Work(env, s.readers[r].(phase := p))
    ensures Total(s.readers, WorkOf(env)) >= Work(env, s.readers[r])
    ensures Started(Moved(s, r, p)) == Started(s.readers)
  {
    hide Total, Work;
    TotalUpdate(s.readers, r, s.readers[r].(phase := p), WorkOf(env));
    StartedMoved(s, r, p);
  }

  /** Starting a reader moves its work from what is ahead to what is being done. */
  lemma StartWork(env: Env, all: set<File>, rs: seq<Reader>, f: File)
    requires f in all && f !in Started(rs)
    ensures var more := rs + [Reader(f, Reading)];
            Sum(Ahead(env, all, Started(more))) + Total(more, WorkOf(env))
            == Sum(Ahead(env, all, Started(rs))) + Total(rs, WorkOf(env))
  {
    hide Total, Sum, Work;
    var more := rs + [Reader(f, Reading)];
    forall g ensures g in Started(more) <==> g in Started(rs) || g == f {
      if g == f { assert Reader(f, Reading) in more; }
      if x :| x in rs && x.file == g { assert x in more; }
    }
    TotalAppend(rs, Reader(f, Reading), WorkOf(env));
    SumRemove(Ahead(env, all, Started(rs)), f);
    assert Ahead(env, all, Started(rs)) - {f} == Ahead(env, all, Started(more));
  }

  lemma {:induction false} FileClaimed(rs: seq<Reader>, f: File)
    requires f in Started(rs)
    ensures f in Bag(rs, FileOf)
  {
    var x :| x in rs && x.file == f;
    var i :| 0 <= i < |rs| && rs[i] == x;
    BagHas(rs, i, FileOf);
  }

  /** Nobody has started a dependency that a reader is waiting to start. */
  lemma DepNotStarted(env: Env, s: State, r: nat)
    requires ClaimedOnce(env, s) && r < |s.readers| && s.readers[r].phase.Waiting?
    requires s.readers[r].phase.i < |env.deps(s.readers[r].file)|
    ensures env.deps(s.readers[r].file)[s.readers[r].phase.i] !in Started(s.readers)
    ensures env.deps(s.readers[r].file)[s.readers[r].phase.i] in s.targets
  {
    var f := env.deps(s.readers[r].file)[s.readers[r].phase.i];
    BagHas(s.readers, r, PendingOf(env));
    assert Bag(s.readers, PendingOf(env))[f] >= 1;
    NotTwice(env, s, f);
  }

  lemma NotTwice(env: Env, s: State, f: File)
    requires ClaimedOnce(env, s)
    requires Bag(s.readers, PendingOf(env))[f] >= 1 || RootsLeft(env, s.scheduler)[f] >= 1
    ensures f !in Started(s.readers) && f in s.targets
  {
    hide Bag, RootsLeft;
    assert Claims(env, s)[f] == multiset(s.targets)[f] <= 1;
    if f in Started(s.readers) {
      FileClaimed(s.readers, f);
      assert false;
    }
  }

  lemma RootNotStarted(env: Env, s: State)
    requires ClaimedOnce(env, s) && s.scheduler.WaitRoot? && s.scheduler.i < |env.roots|
    ensures env.roots[s.scheduler.i] !in Started(s.readers) && env.roots[s.scheduler.i] in s.targets
  {
    hide Bag;
    RootsNext(env, s.scheduler.i);
    NotTwice(env, s, env.roots[s.scheduler.i]);
  }

  lemma StepShorter(env: Env, all: set<File>, s: State, st: Step)
    requires Inv(env, s) && Universe(env, all) && s.targets <= all && Started(s.readers) <= all && Enabled(env, s, st)
    ensures Measure(env, all, Apply(env, s, st)) < Measure(env, all, s)
    ensures Apply(env, s, st).targets <= all && Started(Apply(env, s, st).readers) <= all
  {
    match st
    case StartRoot => StartRootShorter(env, all, s);
    case Look(r) => LookShorter(env, all, s, r);
    case StartDep(r) => StartDepShorter(env, all, s, r);
    case _ => OtherShorter(env, all, s, st);
  }

  lemma OtherShorter(env: Env, all: set<File>, s: State, st: Step)
    requires Bounded(env, s) && ClosedLast(s) && Universe(env, all) && s.targets <= all && Started(s.readers) <= all && Enabled(env, s, st)
    requires !st.StartRoot? && !st.Look? && !st.StartDep?
    ensures Measure(env, all, Apply(env, s, st)) < Measure(env, all, s)
    ensures Apply(env, s, st).targets <= all && Started(Apply(env, s, st).readers) <= all
  {
    hide Total, Sum, Ahead, Started;
    match st
    case Send(r) => OwnWork(env, all, s, r, Releasing);
    case Release(r) => OwnWork(env, all, s, r, AtDep(0));
    case Add(r) => OwnWork(env, all, s, r, Waiting(s.readers[r].phase.i));
    case Finish(r) => OwnWork(env, all, s, r, Finished);
    case _ =>
  }

  lemma StartRootShorter(env: Env, all: set<File>, s: State)
    requires Inv(env, s) && Universe(env, all) && s.targets <= all && Started(s.readers) <= all && Enabled(env, s, StartRoot)
    ensures Measure(env, all, Apply(env, s, StartRoot)) < Measure(env, all, s)
    ensures Started(Apply(env, s, StartRoot).readers) <= all
  {
    hide Total, Sum, Ahead, Counted, Bounded, SentOnce, Covered, OnlyReachable, ClosedLast, ClaimedOnce;
    RootNotStarted(env, s);
    StartWork(env, all, s.readers, env.roots[s.scheduler.i]);
  }

  lemma LookShorter(env: Env, all: set<File>, s: State, r: nat)
    requires Inv(env, s) && Universe(env, all) && s.targets <= all && Started(s.readers) <= all && Enabled(env, s, Look(r))
    ensures Measure(env, all, Apply(env, s, Look(r))) < Measure(env, all, s)
    ensures Apply(env, s, Look(r)).targets <= all && Started(Apply(env, s, Look(r)).readers) <= all
  {
    hide Total, Sum, Ahead, Counted, ClaimedOnce, SentOnce, Covered, OnlyReachable, ClosedLast;
    var i := s.readers[r].phase.i;
    assert s.readers[r] in s.readers;
    OwnWork(env, all, s, r, AtDep(i + 1));
    OwnWork(env, all, s, r, Adding(i));
  }

  lemma StartDepShorter(env: Env, all: set<File>, s: State, r: nat)
    requires Inv(env, s) && Universe(env, all) && s.targets <= all && Started(s.readers) <= all && Enabled(env, s, StartDep(r))
    ensures Measure(env, all, Apply(env, s, StartDep(r))) < Measure(env, all, s)
    ensures Started(Apply(env, s, StartDep(r)).readers) <= all
  {
    hide Total, Sum, Ahead, Counted, SentOnce, Covered, OnlyReachable, ClosedLast, ClaimedOnce;
    var i := s.readers[r].phase.i;
    OwnWork(env, all, s, r, AtDep(i + 1));
    DepNotStarted(env, s, r);
    StartWork(env, all, Moved(s, r, AtDep(i + 1)), env.deps(s.readers[r].file)[i]);
  }

  /** No run is longer than its measure, whatever the interleaving. */
  lemma {:induction false} RunsEnd(env: Env, all: set<File>, run: seq<State>, k: nat)
    requires IsRun(env, run) && DistinctRoots(env) && Universe(env, all) && k < |run|
    ensures k + Measure(env, all, run[k]) <= Measure(env, all, Initial(env))
    ensures run[k].targets <= all && Started(run[k].readers) <= all
  {
    hide Inv, Measure, Enabled, Apply, Universe, Initial;
    if k == 0 {
      StartEmpty(env);
    } else {
      RunsEnd(env, all, run, k - 1);
      InvRun(env, run, k - 1);
      assert Successor(env, run[k - 1], run[k]);
      var st :| Enabled(env, run[k - 1], st) && run[k] == Apply(env, run[k - 1], st);
      StepShorter(env, all, run[k - 1], st);
    }
  }

  lemma StartEmpty(env: Env)
    ensures Initial(env).targets == {} && Started(Initial(env).readers) == {}
  {
  }

  ghost predicate CanGoOn(env: Env, s: State) {
    exists st :: Enabled(env, s, st)
  }

  /** A run can go on until its work is finished: together with `RunsEnd`, every run of the reader completes. */
  lemma RunsComplete(env: Env, run: seq<State>)
    requires IsRun(env, run) && DistinctRoots(env) && env.tokens > 0
    ensures run[|run| - 1].done || CanGoOn(env, run[|run| - 1])
  {
    hide Inv, Enabled, Apply;
    InvRun(env, run, |run| - 1);
    if !run[|run| - 1].done {
      var st := NeverStuck(env, run[|run| - 1]);
    }
  }

  // Indexing the dependencies afterwards.

  /** The graph after the results loop: nil for a target whose result has not come. */
  ghost function Targets(s: State): map<File, bool> {
    map f | f in s.targets :: f in s.received
  }

  /** A dependency as it is written in a metadata file, and the edge it becomes. */
  datatype Dependency = Dependency(file: File, annotations: seq<string>)
  datatype Edge = Edge(target: File, dependency: File, annotations: set<string>)

  const RECOGNIZED_ANNOTATIONS := {"static", "dynamic", "toolchain"}

  ghost predicate Known(targets: map<File, bool>, d: Dependency) {
    d.file != "" && d.file in targets && targets[d.file]
  }

  ghost predicate IsEdgeOf(e: Edge, target: File, d: Dependency) {
    && e.target == target && e.dependency == d.file
    && forall a :: a in e.annotations <==> a in d.annotations && a in RECOGNIZED_ANNOTATIONS
  }

  /** Turns the dependencies of one target into edges, which carry the recognized annotations, and appends them to those
      of the graph. It stops at the first dependency that is not a target that has been read. */
  method AddDependencies(targets: map<File, bool>, target: File, deps: seq<Dependency>, graphEdges: seq<Edge>)
    returns (ok: bool, edges: seq<Edge>, graphEdges': seq<Edge>)
    ensures ok <==> forall i :: 0 <= i < |deps| ==> Known(targets, deps[i])
    ensures |edges| <= |deps| && (forall i :: 0 <= i < |edges| ==> Known(targets, deps[i]) && IsEdgeOf(edges[i], target, deps[i]))
    ensures if ok then |edges| == |deps| else |edges| < |deps| && !Known(targets, deps[|edges|])
    ensures graphEdges' == graphEdges + edges
  {
    edges, graphEdges' := [], graphEdges;
    for n := 0 to |deps|
      invariant |edges| == n && graphEdges' == graphEdges + edges
      invariant forall i :: 0 <= i < n ==> Known(targets, deps[i]) && IsEdgeOf(edges[i], target, deps[i])
    {
      var dependency := deps[n].file;
      if |dependency| == 0 {
        return false, edges, graphEdges';
      }
      if dependency !in targets {
        return false, edges, graphEdges';
      }
      if !targets[dependency] {
        return false, edges, graphEdges';
      }
      var annotations := RecognizedAnnotations(deps[n].annotations);
      var edge := Edge(target, dependency, annotations);
      graphEdges' := graphEdges' + [edge];
      edges := edges + [edge];
    }
    return true, edges, graphEdges';
  }

  method RecognizedAnnotations(given: seq<string>) returns (annotations: set<string>)
    ensures forall a :: a in annotations <==> a in given && a in RECOGNIZED_ANNOTATIONS
  {
    annotations := {};
    for k := 0 to |given|
      invariant forall a :: a in annotations <==> a in given[..k] && a in RECOGNIZED_ANNOTATIONS
    {
      if given[k] in RECOGNIZED_ANNOTATIONS {
        annotations := annotations + {given[k]};
      }
    }
  }

  /** After a run that ends, indexing reports no dependency as missing, unknown or nil: a file without a name cannot
      have been read. */
  lemma DependenciesKnown(env: Env, run: seq<State>, f: File, i: nat, annotations: seq<string>)
    requires IsRun(env, run) && DistinctRoots(env) && run[|run| - 1].done && !Reachable(env, "")
    requires f in run[|run| - 1].targets && i < |env.deps(f)|
    ensures Known(Targets(run[|run| - 1]), Dependency(env.deps(f)[i], annotations))
  {
    hide Inv, Reachable;
    Complete(env, run);
    ReachDep(env, f, env.deps(f)[i]);
  }
}
