/**
 Some runs of the reader: the threads make all the steps of a call of `_present` at once. A run in
 which one worker serves the queue call by call is a function of what the reader knows.
 */
module ReadRuns {
  import opened Wrappers
  import opened ImportGraph
  import opened ReadPool
  import E = Executor

  /** The states are one after the other related by an action. */
  ghost predicate Way<S(!new), A(!new)>(step: (S, A, S) -> bool, s: S, states: seq<S>, actions: seq<A>, s': S) {
    && |states| == |actions| + 1 && states[0] == s && states[|actions|] == s'
    && forall i | 0 <= i < |actions| :: step(states[i], actions[i], states[i + 1])
  }

  lemma WayJoins<S(!new), A(!new)>(step: (S, A, S) -> bool, s: S, states1: seq<S>, actions1: seq<A>, s1: S,
          states2: seq<S>, actions2: seq<A>, s2: S)
    requires Way(step, s, states1, actions1, s1) && Way(step, s1, states2, actions2, s2)
    ensures Way(step, s, states1 + states2[1..], actions1 + actions2, s2)
  {
  }

  ghost function Steps(env: Env, hits: set<Loc>): (State, Action, State) -> bool {
    (s, a, s') => Enabled(env, s, a) && s' == Do(env, hits, s, a)
  }

  /** Enabled steps lead from s to s'. */
  ghost predicate Comes(env: Env, hits: set<Loc>, s: State, s': State) {
    exists states, actions :: Way(Steps(env, hits), s, states, actions, s')
  }

  lemma ComesNowhere(env: Env, hits: set<Loc>, s: State)
    ensures Comes(env, hits, s, s)
  {
    assert Way(Steps(env, hits), s, [s], [], s);
  }

  lemma ComesThen(env: Env, hits: set<Loc>, s: State, s1: State, s2: State)
    requires Comes(env, hits, s, s1) && Comes(env, hits, s1, s2)
    ensures Comes(env, hits, s, s2)
  {
    var states1, actions1 :| Way(Steps(env, hits), s, states1, actions1, s1);
    var states2, actions2 :| Way(Steps(env, hits), s1, states2, actions2, s2);
    WayJoins(Steps(env, hits), s, states1, actions1, s1, states2, actions2, s2);
  }

  /** One step. */
  lemma Step(env: Env, hits: set<Loc>, s: State, a: Action) returns (s': State)
    requires Enabled(env, s, a)
    ensures s' == Do(env, hits, s, a) && Comes(env, hits, s, s')
  {
    s' := Do(env, hits, s, a);
    assert Way(Steps(env, hits), s, [s, s'], [a], s');
  }

  // ----- What a thread does with one call

  /** Get and Look. */
  lemma Takes(env: Env, hits: set<Loc>, s: State, w: nat) returns (s': State)
    requires Enabled(env, s, Get(w))
    ensures Comes(env, hits, s, s') && Shape(s')
    ensures var entry := s.pool.queue[0].entry;
            && s' == s.(pool := s.pool.(queue := s.pool.queue[1..], workers := s.pool.workers[w := E.Running(entry)]),
                        pcs := s.pcs[w := Looked(hits, s.cache, entry.task)])
  {
    var entry := s.pool.queue[0].entry;
    var s1 := Step(env, hits, s, Get(w));
    assert s1 == s.(pool := s.pool.(queue := s.pool.queue[1..], workers := s.pool.workers[w := E.Running(entry)]),
                    pcs := s.pcs[w := Looking]);
    s' := Step(env, hits, s1, Look(w));
    ComesThen(env, hits, s, s1, s');
    assert s'.pcs == s.pcs[w := Looked(hits, s.cache, entry.task)];
  }

  /** Create and Insert, after a miss. */
  lemma Makes(env: Env, hits: set<Loc>, s: State, t: nat) returns (s': State)
    requires Enabled(env, s, Create(t)) && JobClass(env, JobOf(env, s, t)).Some?
    ensures Comes(env, hits, s, s') && Shape(s')
    ensures var job := JobOf(env, s, t);
            var made := Fresh(|s.built|, JobClass(env, job).value);
            && s' == s.(pcs := s.pcs[t := Submitting(made, 0)], cache := s.cache[job.loc := made],
                        built := s.built + [Build(job.loc, t)],
                        reach := if job.loc in s.reach then s.reach else s.reach[job.loc := 0])
  {
    var job := JobOf(env, s, t);
    var made := Fresh(|s.built|, JobClass(env, job).value);
    var s1 := Step(env, hits, s, Create(t));
    assert s1 == s.(pcs := s.pcs[t := Built(made)], built := s.built + [Build(job.loc, t)]);
    assert JobOf(env, s1, t) == job;
    s' := Step(env, hits, s1, Insert(t));
    ComesThen(env, hits, s, s1, s');
    assert s'.pcs == s.pcs[t := Submitting(made, 0)];
  }

  /** The calls for a list of imports. */
  function Calls(imports: seq<Loc>, origin: Loc, presenter: Class): seq<Job> {
    seq(|imports|, i requires 0 <= i < |imports| => Job(imports[i], Some(origin), Some(presenter)))
  }

  /** The queue entries of the calls from the given id on. */
  function Entries(jobs: seq<Job>, id: nat): seq<E.Item<Job>> {
    seq(|jobs|, i requires 0 <= i < |jobs| => E.Work(E.Entry(id + i, jobs[i])))
  }

  /** The pool after more tasks have been submitted and put. */
  function More(pool: Pool, jobs: seq<Job>): Pool {
    pool.(submitted := pool.submitted + jobs, queue := pool.queue + Entries(jobs, |pool.submitted|),
          unfinished := pool.unfinished + |jobs|)
  }

  lemma Puts(env: Env, hits: set<Loc>, s: State, t: nat) returns (s': State)
    requires Enabled(env, s, Put(t))
    ensures Comes(env, hits, s, s') && Shape(s')
    ensures s' == s.(pool := s.pool.(queue := s.pool.queue + [E.Work(s.pool.pending[t].value)],
                                     pending := s.pool.pending[t := None],
                                     unfinished := s.pool.unfinished + 1))
  {
    s' := Step(env, hits, s, Put(t));
    assert s'.pcs == s.pcs;
  }

  /** TakeId and Put of the next import. */
  lemma SubmitsOne(env: Env, hits: set<Loc>, s: State, t: nat) returns (s': State)
    requires Enabled(env, s, TakeId(t))
    ensures Comes(env, hits, s, s') && Shape(s')
    ensures s'.pool == More(s.pool, [NextJob(env, s, t)])
            && s'.pcs == s.pcs[t := Submitting(s.pcs[t].made, s.pcs[t].next + 1)]
    ensures s'.cache == s.cache && s'.built == s.built && s'.main == s.main && s'.reach.Keys == s.reach.Keys
  {
    var job := NextJob(env, s, t);
    var entry := E.Entry(|s.pool.submitted|, job);
    var s1 := Step(env, hits, s, TakeId(t));
    assert s1.pool == s.pool.(submitted := s.pool.submitted + [job], pending := s.pool.pending[t := Some(entry)]);
    s' := Puts(env, hits, s1, t);
    ComesThen(env, hits, s, s1, s');
    assert s'.pool.pending == s.pool.pending;
    assert Entries([job], |s.pool.submitted|) == [E.Work(entry)];
    assert s'.pcs == s.pcs[t := Submitting(s.pcs[t].made, s.pcs[t].next + 1)];
  }

  /** Leave, and for a worker Record and TaskDone; nothing else of the state changes. */
  lemma Leaves(env: Env, hits: set<Loc>, s: State, t: nat) returns (s': State)
    requires Enabled(env, s, Leave(t))
    ensures Comes(env, hits, s, s') && Shape(s')
    ensures var job := JobOf(env, s, t);
            s' == s.(pcs := s.pcs[t := Finished(E.Return(Result(s.pcs[t].made, job.loc, job.origin)))])
  {
    s' := Step(env, hits, s, Leave(t));
  }

  lemma Returns(env: Env, hits: set<Loc>, s: State, w: nat) returns (s': State)
    requires Shape(s) && w < |s.pool.workers| && s.pcs[w].Finished? && s.pcs[w].outcome.Return? && s.pool.unfinished > 0
    ensures Comes(env, hits, s, s') && Shape(s')
    ensures s' == s.(pool := s.pool.(workers := s.pool.workers[w := E.Idle], unfinished := s.pool.unfinished - 1,
                                     returned := s.pool.returned[s.pool.workers[w].entry.id := s.pcs[w].outcome.value]),
                     pcs := s.pcs[w := Off])
  {
    var s1 := Step(env, hits, s, Record(w));
    assert s1.pool.workers == s.pool.workers[w := E.Recorded(s.pool.workers[w].entry.id)];
    s' := Step(env, hits, s1, TaskDone(w));
    ComesThen(env, hits, s, s1, s');
    assert s'.pool.workers == s.pool.workers[w := E.Idle];
    assert s'.pcs == s.pcs[w := Off];
  }

  lemma MainReturns(env: Env, hits: set<Loc>, s: State) returns (s': State)
    requires Shape(s) && s.pcs[|s.pool.workers|].Finished?
    ensures Comes(env, hits, s, s') && Shape(s')
    ensures s' == s.(pcs := s.pcs[|s.pool.workers| := Off], main := Some(s.pcs[|s.pool.workers|].outcome))
  {
    s' := Step(env, hits, s, Record(|s.pool.workers|));
  }

  /** The imports that a thread submits from the nth on. */
  lemma {:induction false} SubmitsRest(env: Env, hits: set<Loc>, s: State, t: nat) returns (s': State)
    requires Shape(s) && t < |s.pcs| && s.pcs[t].Submitting? && s.pcs[t].made.Fresh? && s.pool.pending[t].None?
    requires s.pcs[t].next <= |ToSubmit(env, s, t)| && JobOf(env, s, t).loc in s.reach
    ensures Comes(env, hits, s, s') && Shape(s')
    ensures var imports, made := ToSubmit(env, s, t), s.pcs[t].made;
            && s'.pool == More(s.pool, Calls(imports[s.pcs[t].next..], JobOf(env, s, t).loc, made.presenter))
            && s'.pcs == s.pcs[t := Submitting(made, |imports|)]
    ensures s'.cache == s.cache && s'.built == s.built && s'.main == s.main && s'.reach.Keys == s.reach.Keys
    decreases |ToSubmit(env, s, t)| - s.pcs[t].next
  {
    var imports, made, n := ToSubmit(env, s, t), s.pcs[t].made, s.pcs[t].next;
    if n == |imports| {
      ComesNowhere(env, hits, s);
      s' := s;
      assert Calls(imports[n..], JobOf(env, s, t).loc, made.presenter) == [];
      assert s.pcs == s.pcs[t := Submitting(made, |imports|)];
    } else {
      var s1 := SubmitsOne(env, hits, s, t);
      assert JobOf(env, s1, t) == JobOf(env, s, t) && ToSubmit(env, s1, t) == imports;
      s' := SubmitsRest(env, hits, s1, t);
      ComesThen(env, hits, s, s1, s');
      MoreMore(s.pool, NextJob(env, s, t), Calls(imports[n + 1..], JobOf(env, s, t).loc, made.presenter));
      assert Calls(imports[n..], JobOf(env, s, t).loc, made.presenter)
          == [NextJob(env, s, t)] + Calls(imports[n + 1..], JobOf(env, s, t).loc, made.presenter);
      assert s'.pcs == s.pcs[t := Submitting(made, |imports|)];
    }
  }

  lemma MoreMore(pool: Pool, job: Job, jobs: seq<Job>)
    ensures More(More(pool, [job]), jobs) == More(pool, [job] + jobs)
  {
  }

  /** The calls that a job submits whose presentation is created. */
  function CallsOf(env: Env, job: Job): seq<Job>
    requires JobClass(env, job).Some?
  {
    Calls(JobImports(env, job, JobClass(env, job).value), job.loc, JobClass(env, job).value)
  }

  /** Create, Insert, and all submissions. */
  lemma ReadsIn(env: Env, hits: set<Loc>, s: State, t: nat) returns (s': State)
    requires Enabled(env, s, Create(t)) && JobClass(env, JobOf(env, s, t)).Some? && s.pool.pending[t].None?
    ensures Comes(env, hits, s, s') && Shape(s')
    ensures var job := JobOf(env, s, t);
            var made := Fresh(|s.built|, JobClass(env, job).value);
            && s'.pool == More(s.pool, CallsOf(env, job)) && s'.pcs == s.pcs[t := Submitting(made, |CallsOf(env, job)|)]
            && s'.cache == s.cache[job.loc := made] && |s'.built| == |s.built| + 1 && s'.main == s.main
            && s'.reach.Keys == s.reach.Keys + {job.loc}
            && JobOf(env, s', t) == job && |ToSubmit(env, s', t)| == |CallsOf(env, job)|
  {
    var job := JobOf(env, s, t);
    var s1 := Makes(env, hits, s, t);
    assert JobOf(env, s1, t) == job;
    s' := SubmitsRest(env, hits, s1, t);
    ComesThen(env, hits, s, s1, s');
    assert ToSubmit(env, s1, t)[0..] == ToSubmit(env, s1, t);
  }

  /** A call of a worker that has missed, to its end. */
  lemma ServesCall(env: Env, hits: set<Loc>, s: State, w: nat) returns (s': State)
    requires Enabled(env, s, Create(w)) && w < |s.pool.workers| && JobClass(env, JobOf(env, s, w)).Some?
             && s.pool.pending[w].None?
    requires s.pool.unfinished > 0
    ensures Comes(env, hits, s, s') && Shape(s')
    ensures var job, calls := JobOf(env, s, w), CallsOf(env, JobOf(env, s, w));
            var made := Fresh(|s.built|, JobClass(env, job).value);
            && s'.pool == More(s.pool, calls).(workers := s.pool.workers[w := E.Idle], unfinished := s.pool.unfinished
                                               + |calls| - 1,
                                               returned := s.pool.returned[s.pool.workers[w].entry.id := Result(made,
                                                   job.loc, job.origin)])
            && s'.pcs == s.pcs[w := Off] && s'.main == s.main
            && s'.cache == s.cache[job.loc := made] && |s'.built| == |s.built| + 1
               && s'.reach.Keys == s.reach.Keys + {job.loc}
  {
    var s2 := ReadsIn(env, hits, s, w);
    var s3 := Leaves(env, hits, s2, w);
    s' := Returns(env, hits, s3, w);
    ComesThen(env, hits, s, s2, s3);
    ComesThen(env, hits, s, s3, s');
    assert s'.pcs == s.pcs[w := Off];
  }

  // ----- One worker serves the queue

  /** What the reader knows while no worker is active: the first `served` of the submitted calls have returned. */
  datatype Quiet = Quiet(submitted: seq<Job>, served: nat, returned: map<nat, Result>, cache: map<Loc, Presentation>,
          made: nat)

  /** The state is quiet, apart from the main thread. */
  ghost predicate At(s: State, q: Quiet) {
    && Shape(s) && |s.pool.workers| > 0 && q.served <= |q.submitted|
    && (forall w | 0 <= w < |s.pool.workers| :: s.pool.workers[w].Idle?)
    && (forall t | 0 <= t < |s.pool.pending| :: s.pool.pending[t].None?)
    && s.pool.submitted == q.submitted && s.pool.returned == q.returned
    && s.pool.queue == Entries(q.submitted[q.served..], q.served) && s.pool.unfinished == |q.submitted| - q.served
    && s.cache == q.cache && |s.built| == q.made && s.cache.Keys == s.reach.Keys
  }

  /** The next call can be served: it is not a self import, and it loads. */
  predicate Servable(env: Env, q: Quiet) {
    && q.served < |q.submitted|
    && var job := q.submitted[q.served];
       job.origin != Some(job.loc) && JobClass(env, job).Some?
  }

  /** What the reader knows after the next call. */
  function Serve(env: Env, hits: set<Loc>, q: Quiet): Quiet
    requires Servable(env, q)
  {
    var job := q.submitted[q.served];
    if job.loc in hits then
      q.(served := q.served + 1, returned := q.returned[q.served := Result(Cached(job.loc), job.loc, job.origin)])
    else if job.loc in q.cache then
      q.(served := q.served + 1, returned := q.returned[q.served := Result(q.cache[job.loc], job.loc, job.origin)])
    else ServeNew(env, q)
  }

  /** What it knows after the next call if its location is missed. */
  function ServeNew(env: Env, q: Quiet): Quiet
    requires Servable(env, q)
  {
    var job := q.submitted[q.served];
    var made := Fresh(q.made, JobClass(env, job).value);
    Quiet(q.submitted + CallsOf(env, job), q.served + 1,
          q.returned[q.served := Result(made, job.loc, job.origin)], q.cache[job.loc := made], q.made + 1)
  }

  /** Some run does that. */
  lemma Serves(env: Env, hits: set<Loc>, s: State, q: Quiet) returns (s': State)
    requires At(s, q) && Servable(env, q)
    ensures Comes(env, hits, s, s') && At(s', Serve(env, hits, q))
    ensures |s'.pool.workers| == |s.pool.workers| && s'.main == s.main
    ensures s'.pcs[|s.pool.workers|] == s.pcs[|s.pool.workers|]
  {
    var job := q.submitted[q.served];
    var entry := E.Entry(q.served, job);
    assert s.pool.queue[0] == E.Work(entry);
    assert s.pool.queue[1..] == Entries(q.submitted[q.served + 1..], q.served + 1);
    var s1 := Takes(env, hits, s, 0);
    if job.loc in hits || job.loc in q.cache {
      s' := Returns(env, hits, s1, 0);
      ComesThen(env, hits, s, s1, s');
    } else {
      s' := ServesNew(env, hits, s1, q, 0);
      ComesThen(env, hits, s, s1, s');
    }
  }

  /** Worker w has taken the next call and missed; the others are idle. */
  ghost predicate Missed(env: Env, s: State, q: Quiet, w: nat) {
    && Servable(env, q) && Shape(s) && w < |s.pool.workers|
    && s.pool.workers[w] == E.Running(E.Entry(q.served, q.submitted[q.served])) && s.pcs[w] == Building
    && (forall u | 0 <= u < |s.pool.workers| && u != w :: s.pool.workers[u].Idle?)
    && (forall t | 0 <= t < |s.pool.pending| :: s.pool.pending[t].None?)
    && s.pool.submitted == q.submitted && s.pool.returned == q.returned
    && s.pool.queue == Entries(q.submitted[q.served + 1..], q.served + 1)
       && s.pool.unfinished == |q.submitted| - q.served
    && s.cache == q.cache && |s.built| == q.made && s.cache.Keys == s.reach.Keys
  }

  lemma ServesNew(env: Env, hits: set<Loc>, s: State, q: Quiet, w: nat) returns (s': State)
    requires Missed(env, s, q, w)
    ensures Comes(env, hits, s, s') && At(s', ServeNew(env, q))
    ensures |s'.pool.workers| == |s.pool.workers| && s'.main == s.main
    ensures s'.pcs[|s.pool.workers|] == s.pcs[|s.pool.workers|]
  {
    var job := q.submitted[q.served];
    var calls := CallsOf(env, job);
    s' := ServesCall(env, hits, s, w);
    EntriesJoin(q.submitted[q.served + 1..], calls, q.served + 1);
    assert (q.submitted + calls)[q.served + 1..] == q.submitted[q.served + 1..] + calls;
  }

  lemma EntriesJoin(jobs: seq<Job>, more: seq<Job>, id: nat)
    ensures Entries(jobs, id) + Entries(more, id + |jobs|) == Entries(jobs + more, id)
  {
  }

  /** What the reader knows after n more calls. */
  function ServeMany(env: Env, hits: set<Loc>, q: Quiet, n: nat): Quiet
    decreases n
  {
    if n == 0 || !Servable(env, q) then q else ServeMany(env, hits, Serve(env, hits, q), n - 1)
  }

  lemma {:induction false} ServesMany(env: Env, hits: set<Loc>, s: State, q: Quiet, n: nat) returns (s': State)
    requires At(s, q)
    ensures Comes(env, hits, s, s') && At(s', ServeMany(env, hits, q, n))
    ensures |s'.pool.workers| == |s.pool.workers| && s'.main == s.main
    ensures s'.pcs[|s.pool.workers|] == s.pcs[|s.pool.workers|]
    decreases n
  {
    if n == 0 || !Servable(env, q) {
      ComesNowhere(env, hits, s);
      s' := s;
    } else {
      var s1 := Serves(env, hits, s, q);
      s' := ServesMany(env, hits, s1, Serve(env, hits, q), n - 1);
      ComesThen(env, hits, s, s1, s');
    }
  }

  // ----- The main thread

  /** What the reader knows once the main thread has submitted its first n imports. */
  function MainFirst(env: Env, n: nat): Quiet
    requires JobClass(env, MainJob(env)).Some? && n <= |CallsOf(env, MainJob(env))|
  {
    Quiet(CallsOf(env, MainJob(env))[..n], 0, map[], map[env.main := MainMade(env)], 1)
  }

  function MainMade(env: Env): Presentation
    requires JobClass(env, MainJob(env)).Some?
  {
    Fresh(0, JobClass(env, MainJob(env)).value)
  }

  /** The main thread is submitting, and has submitted n imports. */
  ghost predicate MainAt(env: Env, s: State, n: nat)
    requires JobClass(env, MainJob(env)).Some?
  {
    |s.pcs| == |s.pool.workers| + 1 && s.pcs[|s.pool.workers|] == Submitting(MainMade(env), n)
  }

  lemma MainBegins(env: Env, hits: set<Loc>, size: nat) returns (s: State)
    requires size > 0 && env.main !in hits && JobClass(env, MainJob(env)).Some?
    ensures Comes(env, hits, Init(size), s) && |s.pool.workers| == size
    ensures At(s, MainFirst(env, 0)) && MainAt(env, s, 0)
  {
    var s0 := Init(size);
    var s1 := Step(env, hits, s0, Look(size));
    assert s1 == s0.(pcs := s0.pcs[size := Building]);
    assert JobOf(env, s1, size) == MainJob(env);
    s := Makes(env, hits, s1, size);
    ComesThen(env, hits, s0, s1, s);
    assert Entries([], 0) == [];
  }

  lemma MainSubmits(env: Env, hits: set<Loc>, s: State, n: nat) returns (s': State)
    requires JobClass(env, MainJob(env)).Some? && n < |CallsOf(env, MainJob(env))|
    requires At(s, MainFirst(env, n)) && MainAt(env, s, n)
    ensures Comes(env, hits, s, s') && |s'.pool.workers| == |s.pool.workers|
    ensures At(s', MainFirst(env, n + 1)) && MainAt(env, s', n + 1)
  {
    var calls, t := CallsOf(env, MainJob(env)), |s.pool.workers|;
    assert JobOf(env, s, t) == MainJob(env);
    s' := SubmitsOne(env, hits, s, t);
    assert NextJob(env, s, t) == calls[n];
    assert calls[..n + 1] == calls[..n] + [calls[n]];
    EntriesJoin(calls[..n], [calls[n]], 0);
    assert MainFirst(env, n).submitted[0..] == calls[..n] && MainFirst(env, n + 1).submitted[0..] == calls[..n + 1];
  }

  /** The main thread submits its other imports and presents the main location; then the queue holds them too. */
  lemma MainEnds(env: Env, hits: set<Loc>, s: State, q: Quiet, n: nat) returns (s': State)
    requires JobClass(env, MainJob(env)).Some? && n <= |CallsOf(env, MainJob(env))|
    requires At(s, q) && MainAt(env, s, n) && env.main in q.cache
    ensures Comes(env, hits, s, s') && |s'.pool.workers| == |s.pool.workers|
    ensures At(s', q.(submitted := q.submitted + CallsOf(env, MainJob(env))[n..]))
    ensures s'.main == Some(E.Return(Result(MainMade(env), env.main, None)))
  {
    var t, calls := |s.pool.workers|, CallsOf(env, MainJob(env));
    assert JobOf(env, s, t) == MainJob(env);
    var s1 := SubmitsRest(env, hits, s, t);
    assert JobOf(env, s1, t) == MainJob(env);
    var s2 := Leaves(env, hits, s1, t);
    s' := MainReturns(env, hits, s2);
    ComesThen(env, hits, s, s1, s2);
    ComesThen(env, hits, s, s2, s');
    assert calls[n..] == Calls(ToSubmit(env, s, t)[n..], env.main, MainMade(env).presenter);
    EntriesJoin(q.submitted[q.served..], calls[n..], q.served);
    assert (q.submitted + calls[n..])[q.served..] == q.submitted[q.served..] + calls[n..];
  }

  // ----- Two workers miss the same location

  /** The next two calls are for the same location, which is in neither cache, and both load. */
  predicate BothMiss(env: Env, hits: set<Loc>, q: Quiet) {
    && q.served + 1 < |q.submitted|
    && var job0, job1 := q.submitted[q.served], q.submitted[q.served + 1];
       && job0.loc == job1.loc && job0.loc !in hits && job0.loc !in q.cache
       && job0.origin != Some(job0.loc) && job1.origin != Some(job0.loc)
       && JobClass(env, job0).Some? && JobClass(env, job1).Some?
  }

  /** Workers 0 and 1 have taken the next two calls and missed; the others are idle. */
  ghost predicate BothBuilding(env: Env, hits: set<Loc>, s: State, q: Quiet) {
    && BothMiss(env, hits, q) && Shape(s) && |s.pool.workers| > 1
    && s.pool.workers[0] == E.Running(E.Entry(q.served, q.submitted[q.served])) && s.pcs[0] == Building
    && s.pool.workers[1] == E.Running(E.Entry(q.served + 1, q.submitted[q.served + 1])) && s.pcs[1] == Building
    && (forall w | 1 < w < |s.pool.workers| :: s.pool.workers[w].Idle?)
    && (forall t | 0 <= t < |s.pool.pending| :: s.pool.pending[t].None?)
    && s.pool.submitted == q.submitted && s.pool.returned == q.returned
    && s.pool.queue == Entries(q.submitted[q.served + 2..], q.served + 2)
       && s.pool.unfinished == |q.submitted| - q.served
    && s.cache == q.cache && |s.built| == q.made && s.cache.Keys == s.reach.Keys
  }

  lemma BothTake(env: Env, hits: set<Loc>, s: State, q: Quiet) returns (s': State)
    requires At(s, q) && |s.pool.workers| > 1 && BothMiss(env, hits, q)
    ensures Comes(env, hits, s, s') && BothBuilding(env, hits, s', q)
    ensures |s'.pool.workers| == |s.pool.workers| && s'.main == s.main
  {
    assert s.pool.queue[0] == E.Work(E.Entry(q.served, q.submitted[q.served]));
    assert s.pool.queue[1..][0] == E.Work(E.Entry(q.served + 1, q.submitted[q.served + 1]));
    assert s.pool.queue[1..][1..] == Entries(q.submitted[q.served + 2..], q.served + 2);
    var s1 := Takes(env, hits, s, 0);
    s' := Takes(env, hits, s1, 1);
    ComesThen(env, hits, s, s1, s');
  }

  lemma FirstServes(env: Env, hits: set<Loc>, s: State, q: Quiet) returns (s': State)
    requires BothBuilding(env, hits, s, q)
    ensures Comes(env, hits, s, s') && |s'.pool.workers| == |s.pool.workers| && s'.main == s.main
    ensures Missed(env, s', ServeNew(env, q), 1)
  {
    var calls := CallsOf(env, q.submitted[q.served]);
    s' := ServesCall(env, hits, s, 0);
    EntriesJoin(q.submitted[q.served + 2..], calls, q.served + 2);
    assert (q.submitted + calls)[q.served + 2..] == q.submitted[q.served + 2..] + calls;
  }

  /** Some run of two workers in which both miss the location before either caches it. */
  lemma ServesBoth(env: Env, hits: set<Loc>, s: State, q: Quiet) returns (s': State)
    requires At(s, q) && |s.pool.workers| > 1 && BothMiss(env, hits, q)
    ensures Comes(env, hits, s, s') && At(s', ServeNew(env, ServeNew(env, q)))
    ensures |s'.pool.workers| == |s.pool.workers| && s'.main == s.main
  {
    var s1 := BothTake(env, hits, s, q);
    var s2 := FirstServes(env, hits, s1, q);
    s' := ServesNew(env, hits, s2, ServeNew(env, q), 1);
    ComesThen(env, hits, s, s1, s2);
    ComesThen(env, hits, s, s2, s');
  }
}
