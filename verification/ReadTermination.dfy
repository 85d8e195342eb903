/** The reader always finishes: no run is infinite, and no thread state is stuck before all is done. */
module ReadTermination {
  import opened Counting
  import opened ImportGraph
  import opened ReadPool
  import opened ReadInvariants
  import E = Executor

  /** Compared lexicographically, in the order of the fields. */
  datatype Measure = Measure(uncached: nat, notFresh: nat, stale: nat, unsubmitted: nat, unstarted: nat,
          unfinished: nat)

  predicate Lower(m: Measure, n: Measure) {
    || m.uncached < n.uncached
    || (m.uncached == n.uncached
        && (|| m.notFresh < n.notFresh
            || (m.notFresh == n.notFresh
                && (|| m.stale < n.stale
                    || (m.stale == n.stale
                        && (|| m.unsubmitted < n.unsubmitted
                            || (m.unsubmitted == n.unsubmitted
                                && (|| m.unstarted < n.unstarted
                                    || (m.unstarted == n.unstarted && m.unfinished < n.unfinished)))))))))
  }

  ghost predicate Creating(env: Env, s: State, t: nat)
    requires Shape(s) && t < |s.pcs|
  {
    (s.pcs[t].Building? || s.pcs[t].Built?) && JobClass(env, JobOf(env, s, t)).Some?
  }

  /** 1 for a thread that creates a presentation which is not in the cache yet. */
  ghost function FreshAt(env: Env, s: State, t: nat): nat
    requires Shape(s) && t < |s.pcs|
  {
    if Creating(env, s, t) && JobOf(env, s, t).loc !in s.cache then 1 else 0
  }

  /** 1 for a thread that creates a presentation which another thread has put in the cache meanwhile. */
  ghost function StaleAt(env: Env, s: State, t: nat): nat
    requires Shape(s) && t < |s.pcs|
  {
    if Creating(env, s, t) && JobOf(env, s, t).loc in s.cache then 1 else 0
  }

  /** The imports a thread has yet to submit. */
  ghost function UnsubmittedAt(env: Env, s: State, t: nat): nat
    requires Shape(s) && t < |s.pcs|
  {
    if s.pcs[t].Submitting? && s.pcs[t].next <= |ToSubmit(env, s, t)| then |ToSubmit(env, s, t)| - s.pcs[t].next else 0
  }

  ghost function PendingAt(s: State, t: nat): nat
    requires Shape(s) && t < |s.pcs|
  {
    if s.pool.pending[t].Some? then 2 else 0
  }

  /** The phases a thread has ahead of it with its job. */
  ghost function PhasesAt(s: State, t: nat): nat
    requires Shape(s) && t < |s.pcs|
  {
    match s.pcs[t]
    case Looking => 6
    case Building => 5
    case Built(_) => 4
    case Submitting(_, _) => 3
    case Finished(_) => 2
    case Off => if t < |s.pool.workers| && s.pool.workers[t].Recorded? then 1 else 0
  }

  ghost function Fresh(env: Env, s: State): seq<nat>
    requires Shape(s)
  {
    seq(|s.pcs|, t requires 0 <= t < |s.pcs| => FreshAt(env, s, t))
  }

  ghost function Stale(env: Env, s: State): seq<nat>
    requires Shape(s)
  {
    seq(|s.pcs|, t requires 0 <= t < |s.pcs| => StaleAt(env, s, t))
  }

  ghost function Unsubmitted(env: Env, s: State): seq<nat>
    requires Shape(s)
  {
    seq(|s.pcs|, t requires 0 <= t < |s.pcs| => UnsubmittedAt(env, s, t))
  }

  ghost function Pending(s: State): seq<nat>
    requires Shape(s)
  {
    seq(|s.pcs|, t requires 0 <= t < |s.pcs| => PendingAt(s, t))
  }

  ghost function Phases(s: State): seq<nat>
    requires Shape(s)
  {
    seq(|s.pcs|, t requires 0 <= t < |s.pcs| => PhasesAt(s, t))
  }

  ghost function MeasureOf(env: Env, s: State): Measure
    requires Shape(s)
  {
    TotalBound(Fresh(env, s), 1);
    Measure(|env.sources.Keys - s.cache.Keys|, |s.pcs| - Total(Fresh(env, s)), Total(Stale(env, s)),
            Total(Unsubmitted(env, s)), |s.pool.queue| + Total(Pending(s)), Total(Phases(s)))
  }

  /** The two states differ in one thread only, and not in the cached locations. */
  ghost predicate OnlyThread(env: Env, s: State, s': State, t: nat)
    requires Shape(s) && Shape(s')
  {
    && |s'.pcs| == |s.pcs| && t < |s.pcs| && s'.cache.Keys == s.cache.Keys
    && forall u | 0 <= u < |s.pcs| && u != t ::
         && s'.pcs[u] == s.pcs[u] && s'.pool.pending[u] == s.pool.pending[u]
         && (u < |s.pool.workers| ==> s'.pool.workers[u] == s.pool.workers[u])
  }

  /** Then the totals differ by the weights of that thread. */
  lemma CreatingTotals(env: Env, s: State, s': State, t: nat)
    requires Shape(s) && Shape(s') && OnlyThread(env, s, s', t)
    ensures Total(Fresh(env, s')) + FreshAt(env, s, t) == Total(Fresh(env, s)) + FreshAt(env, s', t)
    ensures Total(Stale(env, s')) + StaleAt(env, s, t) == Total(Stale(env, s)) + StaleAt(env, s', t)
  {
    assert Fresh(env, s') == Fresh(env, s)[t := FreshAt(env, s', t)];
    TotalUpdate(Fresh(env, s), t, FreshAt(env, s', t));
    assert Stale(env, s') == Stale(env, s)[t := StaleAt(env, s', t)];
    TotalUpdate(Stale(env, s), t, StaleAt(env, s', t));
  }

  lemma OtherTotals(env: Env, s: State, s': State, t: nat)
    requires Shape(s) && Shape(s') && OnlyThread(env, s, s', t)
    ensures Total(Unsubmitted(env, s')) + UnsubmittedAt(env, s, t) ==
            Total(Unsubmitted(env, s)) + UnsubmittedAt(env, s', t)
    ensures Total(Pending(s')) + PendingAt(s, t) == Total(Pending(s)) + PendingAt(s', t)
    ensures Total(Phases(s')) + PhasesAt(s, t) == Total(Phases(s)) + PhasesAt(s', t)
  {
    assert Unsubmitted(env, s') == Unsubmitted(env, s)[t := UnsubmittedAt(env, s', t)];
    TotalUpdate(Unsubmitted(env, s), t, UnsubmittedAt(env, s', t));
    assert Pending(s') == Pending(s)[t := PendingAt(s', t)];
    TotalUpdate(Pending(s), t, PendingAt(s', t));
    assert Phases(s') == Phases(s)[t := PhasesAt(s', t)];
    TotalUpdate(Phases(s), t, PhasesAt(s', t));
  }

  /**
   The weights of the stepping thread as a creator: a miss makes it fresh, an insert of a cached location ends
   a stale one.
   */
  lemma CreatingStep(env: Env, hits: set<Loc>, s: State, a: Action)
    requires Enabled(env, s, a) && Shape(Do(env, hits, s, a)) && Do(env, hits, s, a).cache.Keys == s.cache.Keys
    requires a.Insert? ==> JobClass(env, JobOf(env, s, a.thread)).Some?
    ensures var s', t := Do(env, hits, s, a), a.thread;
            && FreshAt(env, s', t) >= FreshAt(env, s, t)
            && (FreshAt(env, s', t) == FreshAt(env, s, t) ==>
                StaleAt(env, s', t) + (if a.Insert? then 1 else 0) <= StaleAt(env, s, t))
  {
    var s', t := Do(env, hits, s, a), a.thread;
    Frame(env, hits, s, a);
    if a.Look? || a.Create? || a.Insert? {
      assert s'.pool == s.pool;
      assert s'.pcs[t].Off? || JobOf(env, s', t) == JobOf(env, s, t);
    }
  }

  lemma UnsubmittedStep(env: Env, hits: set<Loc>, s: State, a: Action)
    requires Enabled(env, s, a) && Shape(Do(env, hits, s, a)) && !a.Insert?
    ensures var s', t := Do(env, hits, s, a), a.thread;
            UnsubmittedAt(env, s', t) + (if a.TakeId? then 1 else 0) <= UnsubmittedAt(env, s, t)
  {
  }

  lemma QueueStep(env: Env, hits: set<Loc>, s: State, a: Action)
    requires Enabled(env, s, a) && Shape(Do(env, hits, s, a)) && !a.Insert? && !a.TakeId?
    ensures var s', t := Do(env, hits, s, a), a.thread;
            var before, after := |s.pool.queue| + PendingAt(s, t), |s'.pool.queue| + PendingAt(s', t);
            after < before || (after == before && PhasesAt(s', t) < PhasesAt(s, t))
  {
    Frame(env, hits, s, a);
  }

  lemma StepIsOneThread(env: Env, hits: set<Loc>, s: State, a: Action)
    requires Enabled(env, s, a) && Shape(Do(env, hits, s, a)) && Do(env, hits, s, a).cache.Keys == s.cache.Keys
    ensures OnlyThread(env, s, Do(env, hits, s, a), a.thread)
  {
    Frame(env, hits, s, a);
  }

  /** A step that caches a new location. */
  lemma CachingLowers(env: Env, hits: set<Loc>, s: State, a: Action)
    requires Enabled(env, s, a) && Do(env, hits, s, a).cache.Keys != s.cache.Keys
    requires PcOk(env, hits, s, a.thread)
    ensures |env.sources.Keys - Do(env, hits, s, a).cache.Keys| < |env.sources.Keys - s.cache.Keys|
  {
    var loc, s' := JobOf(env, s, a.thread).loc, Do(env, hits, s, a);
    assert loc in env.sources.Keys - s.cache.Keys;
    assert env.sources.Keys - s'.cache.Keys < env.sources.Keys - s.cache.Keys;
    ProperSubsetIsSmaller(env.sources.Keys - s'.cache.Keys, env.sources.Keys - s.cache.Keys);
  }

  /** Every step lowers the measure. */
  lemma StepLowers(env: Env, hits: set<Loc>, s: State, a: Action)
    requires Enabled(env, s, a) && Shape(Do(env, hits, s, a))
    requires a.Insert? ==> PcOk(env, hits, s, a.thread)
    ensures Lower(MeasureOf(env, Do(env, hits, s, a)), MeasureOf(env, s))
  {
    var s', t := Do(env, hits, s, a), a.thread;
    if s'.cache.Keys != s.cache.Keys {
      Frame(env, hits, s, a);
      CachingLowers(env, hits, s, a);
    } else {
      StepIsOneThread(env, hits, s, a);
      CreatingTotals(env, s, s', t);
      OtherTotals(env, s, s', t);
      CreatingStep(env, hits, s, a);
      if !a.Insert? {
        UnsubmittedStep(env, hits, s, a);
        if !a.TakeId? {
          QueueStep(env, hits, s, a);
        }
      }
      WeightsLower(env, s, s', t);
    }
  }

  /** The lexicographic comparison of the totals, from the weights of the one thread that changes. */
  lemma WeightsLower(env: Env, s: State, s': State, t: nat)
    requires Shape(s) && Shape(s') && OnlyThread(env, s, s', t)
    requires Total(Fresh(env, s')) + FreshAt(env, s, t) == Total(Fresh(env, s)) + FreshAt(env, s', t)
    requires Total(Stale(env, s')) + StaleAt(env, s, t) == Total(Stale(env, s)) + StaleAt(env, s', t)
    requires Total(Unsubmitted(env, s')) + UnsubmittedAt(env, s, t) ==
             Total(Unsubmitted(env, s)) + UnsubmittedAt(env, s', t)
    requires Total(Pending(s')) + PendingAt(s, t) == Total(Pending(s)) + PendingAt(s', t)
    requires Total(Phases(s')) + PhasesAt(s, t) == Total(Phases(s)) + PhasesAt(s', t)
    requires FreshAt(env, s', t) >= FreshAt(env, s, t)
    requires FreshAt(env, s', t) == FreshAt(env, s, t) ==> StaleAt(env, s', t) <= StaleAt(env, s, t)
    requires FreshAt(env, s', t) == FreshAt(env, s, t) && StaleAt(env, s', t) == StaleAt(env, s, t) ==>
               || UnsubmittedAt(env, s', t) < UnsubmittedAt(env, s, t)
               || (UnsubmittedAt(env, s', t) == UnsubmittedAt(env, s, t)
                   && var before, after := |s.pool.queue| + PendingAt(s, t), |s'.pool.queue| + PendingAt(s', t);
                      after < before || (after == before && PhasesAt(s', t) < PhasesAt(s, t)))
    ensures Lower(MeasureOf(env, s'), MeasureOf(env, s))
  {
  }

  ghost predicate Steps(env: Env, hits: set<Loc>, s: State, a: Action, s': State) {
    Enabled(env, s, a) && s' == Do(env, hits, s, a)
  }

  /** The measure cannot go down forever. */
  lemma {:induction false} DescentEnds(measures: nat -> Measure, i: nat, m: Measure) returns (j: nat)
    requires m == measures(i)
    ensures !Lower(measures(j + 1), measures(j))
    decreases m.uncached, m.notFresh, m.stale, m.unsubmitted, m.unstarted, m.unfinished
  {
    if Lower(measures(i + 1), measures(i)) {
      j := DescentEnds(measures, i + 1, measures(i + 1));
    } else {
      j := i;
    }
  }

  lemma {:induction false} ForeverSound(env: Env, hits: set<Loc>, size: nat, run: nat -> State,
          schedule: nat -> Action, i: nat)
    requires hits <= env.sources.Keys && run(0) == Init(size)
    requires forall n: nat :: Steps(env, hits, run(n), schedule(n), run(n + 1))
    ensures Sound(env, hits, run(i))
  {
    if i == 0 {
      InitSound(env, hits, size);
    } else {
      ForeverSound(env, hits, size, run, schedule, i - 1);
      assert Steps(env, hits, run(i - 1), schedule(i - 1), run(i - 1 + 1));
      SoundKept(env, hits, run(i - 1), schedule(i - 1));
    }
  }

  lemma SoundStepLowers(env: Env, hits: set<Loc>, s: State, a: Action)
    requires Sound(env, hits, s) && Enabled(env, s, a)
    ensures Shape(Do(env, hits, s, a)) && Lower(MeasureOf(env, Do(env, hits, s, a)), MeasureOf(env, s))
  {
    ShapeKept(env, hits, s, a);
    if a.Insert? {
      assert PcOk(env, hits, s, a.thread);
    }
    StepLowers(env, hits, s, a);
  }

  /** No schedule goes on forever, on cyclic imports either. */
  lemma EveryRunEnds(env: Env, hits: set<Loc>, size: nat, run: nat -> State, schedule: nat -> Action)
    requires hits <= env.sources.Keys && run(0) == Init(size)
    ensures exists i: nat :: !Steps(env, hits, run(i), schedule(i), run(i + 1))
  {
    if forall n: nat :: Steps(env, hits, run(n), schedule(n), run(n + 1)) {
      var measures := (i: nat) => if Shape(run(i)) then MeasureOf(env, run(i)) else Measure(0, 0, 0, 0, 0, 0);
      var j := DescentEnds(measures, 0, measures(0));
      ForeverSound(env, hits, size, run, schedule, j);
      assert Steps(env, hits, run(j), schedule(j), run(j + 1));
      SoundStepLowers(env, hits, run(j), schedule(j));
      assert false;
    }
  }

  /** As long as not all is done, some thread can go on. */
  lemma NeverStuck(env: Env, hits: set<Loc>, s: State)
    requires Sound(env, hits, s) && |s.pool.workers| > 0 && !Done(s)
    ensures exists a :: Enabled(env, s, a)
  {
    if t: nat :| t < |s.pcs| && !s.pcs[t].Off? {
      ActiveEnabled(env, hits, s, t);
    } else {
      QuietEnabled(env, s);
    }
  }

  lemma ActiveEnabled(env: Env, hits: set<Loc>, s: State, t: nat)
    requires Sound(env, hits, s) && t < |s.pcs| && !s.pcs[t].Off?
    ensures exists a :: Enabled(env, s, a)
  {
    assert PcOk(env, hits, s, t);
    match s.pcs[t] {
      case Looking => assert Enabled(env, s, Look(t));
      case Building => assert Enabled(env, s, Create(t));
      case Built(_) => assert Enabled(env, s, Insert(t));
      case Submitting(_, next) =>
        if s.pool.pending[t].Some? {
          assert Enabled(env, s, Put(t));
        } else if next < |ToSubmit(env, s, t)| {
          assert Enabled(env, s, TakeId(t));
        } else {
          assert Enabled(env, s, Leave(t));
        }
      case Finished(_) => assert Enabled(env, s, Record(t));
      case Off =>
    }
  }

  lemma QuietEnabled(env: Env, s: State)
    requires Shape(s) && E.Inv(s.pool) && |s.pool.workers| > 0 && !Done(s)
    requires forall t | 0 <= t < |s.pcs| :: s.pcs[t].Off?
    ensures exists a :: Enabled(env, s, a)
  {
    var p := s.pool;
    TotalZero(E.Loads(p.workers));
    if w: nat :| w < |p.workers| && p.workers[w].Recorded? {
      assert E.Loads(p.workers)[w] == 1;
      assert Enabled(env, s, TaskDone(w));
    } else {
      assert forall w | 0 <= w < |p.workers| :: p.workers[w].Idle?;
      assert p.queue != [];
      assert Enabled(env, s, Get(0));
    }
  }
}
