// The background jobs of bio.c: submitters and workers over shared queues, every interleaving, and the inline mode of
// the WASI build.
//
// Each step is one critical section of the worker's mutex, or the work done between two of them.
module Bio {
  datatype JobType =
    | CloseFile | AofFsync | CloseAof | LazyFree | CompRqCloseFile | CompRqAofFsync | CompRqLazyFree

  type Worker = w: nat | w < 3 witness 0

  // bio_job_to_worker
  function WorkerOf(t: JobType): Worker
  {
    match t
    case CloseFile => 0
    case AofFsync => 1
    case CloseAof => 1
    case LazyFree => 2
    case CompRqCloseFile => 0
    case CompRqAofFsync => 1
    case CompRqLazyFree => 2
  }

  predicate IsCompletion(t: JobType) { t == CompRqCloseFile || t == CompRqAofFsync || t == CompRqLazyFree }

  // `id` numbers the submissions.
  datatype Job = Job(id: nat, type': JobType, arg: nat)

  // Where a worker is in its loop.
  datatype Phase = Idle | Running(job: Job) | Done(job: Job)

  // A caller of bioDrainWorker: its worker, and how many jobs that worker had been given when it was called.
  datatype Drain = Drain(worker: Worker, mark: nat)

  datatype State = State(
    jobs: map<Worker, seq<Job>>,      // bio_jobs
    counter: map<JobType, int>,       // bio_jobs_counter
    phase: map<Worker, Phase>,
    compList: seq<Job>,               // bio_comp_list
    delivered: seq<Job>,              // callbacks made by the main thread
    draining: map<nat, Drain>,
    submitted: map<Worker, seq<Job>>, // everything ever given to a worker, in order
    processed: map<Worker, seq<Job>>, // everything it has processed, in order
    next: nat)

  function Jobs(s: State, w: Worker): seq<Job> { if w in s.jobs then s.jobs[w] else [] }

  function Number(s: State, t: JobType): int { if t in s.counter then s.counter[t] else 0 }

  function PhaseOf(s: State, w: Worker): Phase { if w in s.phase then s.phase[w] else Idle }

  function Submitted(s: State, w: Worker): seq<Job> { if w in s.submitted then s.submitted[w] else [] }

  function Processed(s: State, w: Worker): seq<Job> { if w in s.processed then s.processed[w] else [] }

  const INIT := State(map[], map[], map[], [], [], map[], map[], map[], 0)

  // ---------- steps ----------

  // bioSubmitJob
  function Submit(s: State, t: JobType, arg: nat): State
  {
    var (w, job) := (WorkerOf(t), Job(s.next, t, arg));
    s.(jobs := s.jobs[w := Jobs(s, w) + [job]], counter := s.counter[t := Number(s, t) + 1],
       submitted := s.submitted[w := Submitted(s, w) + [job]], next := s.next + 1)
  }

  // A worker takes the first job and lets go of the mutex.
  function Pick(s: State, w: Worker): State
    requires PhaseOf(s, w).Idle? && Jobs(s, w) != []
  {
    s.(phase := s.phase[w := Running(Jobs(s, w)[0])])
  }

  // bioProcessJob: a completion request is handed over by appending it to the list.
  function Process(s: State, w: Worker): State
    requires PhaseOf(s, w).Running?
  {
    var job := PhaseOf(s, w).job;
    s.(phase := s.phase[w := Done(job)], processed := s.processed[w := Processed(s, w) + [job]],
       compList := if IsCompletion(job.type') then s.compList + [job] else s.compList)
  }

  // The worker has the mutex again: the node leaves the queue.
  function Finish(s: State, w: Worker): State
    requires PhaseOf(s, w).Done? && Jobs(s, w) != []
  {
    var t := PhaseOf(s, w).job.type';
    s.(phase := s.phase[w := Idle], jobs := s.jobs[w := Jobs(s, w)[1..]], counter := s.counter[t := Number(s, t) - 1])
  }

  // bioDrainWorker called and, once the queue is empty, returning.
  function DrainCall(s: State, thread: nat, t: JobType): State
  {
    s.(draining := s.draining[thread := Drain(WorkerOf(t), |Submitted(s, WorkerOf(t))|)])
  }

  function DrainReturn(s: State, thread: nat): State { s.(draining := s.draining - {thread}) }

  // bioPipeReadJobCompList
  function ReadCompletions(s: State): State { s.(compList := [], delivered := s.delivered + s.compList) }

  datatype Event =
    | SubmitJob(t: JobType, arg: nat)
    | PickJob(w: Worker)
    | ProcessJob(w: Worker)
    | FinishJob(w: Worker)
    | CallDrain(thread: nat, t: JobType)
    | ReturnDrain(thread: nat)
    | ReadList

  predicate Enabled(s: State, e: Event)
  {
    match e
    case SubmitJob(_, _) => true
    case PickJob(w) => PhaseOf(s, w).Idle? && Jobs(s, w) != []
    case ProcessJob(w) => PhaseOf(s, w).Running?
    case FinishJob(w) => PhaseOf(s, w).Done? && Jobs(s, w) != []
    case CallDrain(thread, _) => thread !in s.draining
    case ReturnDrain(thread) => thread in s.draining && Jobs(s, s.draining[thread].worker) == []
    case ReadList => true
  }

  function Step(s: State, e: Event): State
    requires Enabled(s, e)
  {
    match e
    case SubmitJob(t, arg) => Submit(s, t, arg)
    case PickJob(w) => Pick(s, w)
    case ProcessJob(w) => Process(s, w)
    case FinishJob(w) => Finish(s, w)
    case CallDrain(thread, t) => DrainCall(s, thread, t)
    case ReturnDrain(thread) => DrainReturn(s, thread)
    case ReadList => ReadCompletions(s)
  }

  // ---------- what every interleaving keeps ----------

  function CountType(q: seq<Job>, t: JobType): nat
  {
    if q == [] then 0 else CountType(q[..|q| - 1], t) + if q[|q| - 1].type' == t then 1 else 0
  }

  // The completion requests among some jobs, and the jobs of one worker among some completion requests.
  function Completions(q: seq<Job>): seq<Job>
  {
    if q == [] then []
    else Completions(q[..|q| - 1]) + if IsCompletion(q[|q| - 1].type') then [q[|q| - 1]] else []
  }

  function OfWorker(q: seq<Job>, w: Worker): seq<Job>
  {
    if q == [] then []
    else OfWorker(q[..|q| - 1], w) + if WorkerOf(q[|q| - 1].type') == w then [q[|q| - 1]] else []
  }

  // What concerns one worker: all it was given, all it has processed, what is queued, where it is in its loop, and the
  // completion requests of its that were handed over.
  datatype View = View(given: seq<Job>, done: seq<Job>, queued: seq<Job>, phase: Phase, published: seq<Job>)

  function ViewOf(s: State, w: Worker): View
  {
    View(Submitted(s, w), Processed(s, w), Jobs(s, w), PhaseOf(s, w), OfWorker(s.delivered + s.compList, w))
  }

  // What it has processed is a prefix of what it was given, in order and each job once; what is not finished is queued;
  // the job it holds is the first one queued; and the requests handed over are exactly those it has processed.
  predicate ViewOk(v: View, w: Worker, next: nat)
  {
    && v.done <= v.given
    && (if v.phase.Done? then
          |v.done| > 0 && v.done[|v.done| - 1] == v.phase.job && v.queued == v.given[|v.done| - 1..]
        else v.queued == v.given[|v.done|..])
    && (v.phase.Running? ==> v.queued != [] && v.queued[0] == v.phase.job)
    && (forall i | 0 <= i < |v.given| :: WorkerOf(v.given[i].type') == w && v.given[i].id < next)
    && (forall i, j | 0 <= i < j < |v.given| :: v.given[i].id < v.given[j].id)
    && v.published == Completions(v.done)
  }

  predicate WorkerOk(s: State, w: Worker) { ViewOk(ViewOf(s, w), w, s.next) }

  // Every counter is the number of queued jobs of its type.
  predicate CounterOk(s: State, t: JobType) { Number(s, t) == CountType(Jobs(s, WorkerOf(t)), t) }

  ghost predicate Inv(s: State)
  {
    && (forall w: Worker :: WorkerOk(s, w))
    && (forall t: JobType :: CounterOk(s, t))
    && forall d | d in s.draining :: s.draining[d].mark <= |Submitted(s, s.draining[d].worker)|
  }

  lemma {:induction false} CountConcat(a: seq<Job>, b: seq<Job>, t: JobType)
    ensures CountType(a + b, t) == CountType(a, t) + CountType(b, t)
    decreases |b|
  {
    if b == [] {
      assert a + b == a;
    } else {
      assert (a + b)[..|a + b| - 1] == a + b[..|b| - 1];
      CountConcat(a, b[..|b| - 1], t);
    }
  }

  lemma {:induction false} OfWorkerConcat(a: seq<Job>, b: seq<Job>, w: Worker)
    ensures OfWorker(a + b, w) == OfWorker(a, w) + OfWorker(b, w)
    decreases |b|
  {
    if b == [] {
      assert a + b == a;
    } else {
      assert (a + b)[..|a + b| - 1] == a + b[..|b| - 1];
      OfWorkerConcat(a, b[..|b| - 1], w);
    }
  }

  lemma {:induction false} CountOther(q: seq<Job>, t: JobType)
    requires forall i | 0 <= i < |q| :: q[i].type' != t
    ensures CountType(q, t) == 0
  {
    if q != [] {
      CountOther(q[..|q| - 1], t);
    }
  }

  lemma OneJob(job: Job, t: JobType, w: Worker)
    ensures CountType([job], t) == if job.type' == t then 1 else 0
    ensures OfWorker([job], w) == if WorkerOf(job.type') == w then [job] else []
  {
    assert [job][..0] == [];
  }

  lemma ViewNext(v: View, w: Worker, m: nat, n: nat)
    requires ViewOk(v, w, m) && m <= n
    ensures ViewOk(v, w, n)
  {}

  lemma SubmitView(v: View, w: Worker, job: Job)
    requires ViewOk(v, w, job.id) && WorkerOf(job.type') == w
    ensures ViewOk(v.(given := v.given + [job], queued := v.queued + [job]), w, job.id + 1)
  {
    var n := |v.done|;
    assert (v.given + [job])[n..] == v.given[n..] + [job];
    assert n > 0 ==> (v.given + [job])[n - 1..] == v.given[n - 1..] + [job];
  }

  // What the steps do to what concerns each worker.
  lemma SubmitViews(s: State, t: JobType, arg: nat, w: Worker)
    ensures var (v, job) := (ViewOf(s, w), Job(s.next, t, arg));
            ViewOf(Submit(s, t, arg), w) ==
            if w == WorkerOf(t) then v.(given := v.given + [job], queued := v.queued + [job]) else v
  {
    hide OfWorker;
  }

  lemma SubmitCounts(s: State, t: JobType, arg: nat, t': JobType)
    requires CounterOk(s, t')
    ensures CounterOk(Submit(s, t, arg), t')
  {
    hide CountType;
    var job := Job(s.next, t, arg);
    CountConcat(Jobs(s, WorkerOf(t')), [job], t');
    OneJob(job, t', WorkerOf(t));
  }

  lemma SubmitKeeps(s: State, t: JobType, arg: nat)
    requires Inv(s)
    ensures Inv(Submit(s, t, arg))
  {
    hide ViewOk, ViewOf, CounterOk;
    var u := Submit(s, t, arg);
    forall w: Worker
      ensures WorkerOk(u, w)
    {
      assert WorkerOk(s, w);
      SubmitViews(s, t, arg, w);
      if w == WorkerOf(t) {
        SubmitView(ViewOf(s, w), w, Job(s.next, t, arg));
      } else {
        ViewNext(ViewOf(s, w), w, s.next, s.next + 1);
      }
    }
    forall t': JobType
      ensures CounterOk(u, t')
    {
      SubmitCounts(s, t, arg, t');
    }
  }

  // A step of worker `w` that leaves the queues, and so the counters, alone.
  lemma SameCounters(s: State, u: State)
    requires Inv(s) && u.jobs == s.jobs && u.counter == s.counter
    ensures forall t: JobType :: CounterOk(u, t)
  {
    forall t: JobType
      ensures CounterOk(u, t)
    {
      assert CounterOk(s, t);
    }
  }

  lemma PickKeeps(s: State, w: Worker)
    requires Inv(s) && PhaseOf(s, w).Idle? && Jobs(s, w) != []
    ensures Inv(Pick(s, w))
  {
    var u := Pick(s, w);
    SameCounters(s, u);
    hide OfWorker, CountType;
    forall v: Worker
      ensures WorkerOk(u, v)
    {
      assert WorkerOk(s, v);
    }
  }

  lemma ProcessView(v: View, w: Worker, next: nat)
    requires ViewOk(v, w, next) && v.phase.Running?
    ensures var job := v.phase.job;
            WorkerOf(job.type') == w &&
            ViewOk(v.(phase := Done(job), done := v.done + [job],
                      published := v.published + if IsCompletion(job.type') then [job] else []), w, next)
  {
    var (job, n) := (v.phase.job, |v.done|);
    assert job == v.given[n..][0] == v.given[n];
    assert (v.done + [job])[..n] == v.done;
    assert v.given[..n + 1] == v.given[..n] + [job];
  }

  lemma ProcessViews(s: State, w: Worker, w': Worker)
    requires PhaseOf(s, w).Running? && WorkerOf(PhaseOf(s, w).job.type') == w
    ensures var (v, job) := (ViewOf(s, w'), PhaseOf(s, w).job);
            ViewOf(Process(s, w), w') ==
            if w' == w then
              v.(phase := Done(job), done := v.done + [job],
                 published := v.published + if IsCompletion(job.type') then [job] else [])
            else v
  {
    hide OfWorker, IsCompletion;
    Published(s, Process(s, w), PhaseOf(s, w).job, w');
  }

  lemma ProcessKeeps(s: State, w: Worker)
    requires Inv(s) && PhaseOf(s, w).Running?
    ensures Inv(Process(s, w))
  {
    var u := Process(s, w);
    SameCounters(s, u);
    hide ViewOk, CounterOk, OfWorker;
    assert WorkerOk(s, w);
    ProcessView(ViewOf(s, w), w, s.next);
    forall v: Worker
      ensures WorkerOk(u, v)
    {
      assert WorkerOk(s, v);
      ProcessViews(s, w, v);
    }
  }

  lemma Published(s: State, u: State, job: Job, w: Worker)
    requires u.delivered == s.delivered
    requires u.compList == if IsCompletion(job.type') then s.compList + [job] else s.compList
    ensures OfWorker(u.delivered + u.compList, w) ==
            OfWorker(s.delivered + s.compList, w) +
            if IsCompletion(job.type') && WorkerOf(job.type') == w then [job] else []
  {
    if IsCompletion(job.type') {
      assert s.delivered + (s.compList + [job]) == (s.delivered + s.compList) + [job];
      OfWorkerConcat(s.delivered + s.compList, [job], w);
      OneJob(job, job.type', w);
    }
  }

  lemma FinishView(v: View, w: Worker, next: nat)
    requires ViewOk(v, w, next) && v.phase.Done?
    ensures v.queued != [] && v.queued[0] == v.phase.job && WorkerOf(v.phase.job.type') == w
    ensures ViewOk(v.(phase := Idle, queued := v.queued[1..]), w, next)
  {
    var n := |v.done|;
    assert v.queued[0] == v.given[n - 1] == v.done[n - 1];
    assert v.queued[1..] == v.given[n..];
  }

  lemma FinishKeeps(s: State, w: Worker)
    requires Inv(s) && PhaseOf(s, w).Done? && Jobs(s, w) != []
    ensures Inv(Finish(s, w))
  {
    hide ViewOk, OfWorker, CountType;
    var (u, job, queued) := (Finish(s, w), PhaseOf(s, w).job, Jobs(s, w));
    assert WorkerOk(s, w);
    FinishView(ViewOf(s, w), w, s.next);
    assert queued == [job] + queued[1..];
    forall v: Worker
      ensures WorkerOk(u, v)
    {
      assert WorkerOk(s, v);
    }
    forall t: JobType
      ensures CounterOk(u, t)
    {
      assert CounterOk(s, t);
      CountConcat([job], queued[1..], t);
      OneJob(job, t, w);
    }
  }

  lemma ReadKeeps(s: State)
    requires Inv(s)
    ensures Inv(ReadCompletions(s))
  {
    var u := ReadCompletions(s);
    SameCounters(s, u);
    hide ViewOk, OfWorker, CountType, CounterOk;
    assert u.delivered + u.compList == s.delivered + s.compList;
    forall w: Worker
      ensures WorkerOk(u, w)
    {
      assert WorkerOk(s, w);
    }
  }

  lemma DrainKeeps(s: State, thread: nat, t: JobType)
    requires Inv(s)
    ensures Inv(DrainCall(s, thread, t)) && Inv(DrainReturn(s, thread))
  {
    DrainsOnly(s, DrainCall(s, thread, t));
    DrainsOnly(s, DrainReturn(s, thread));
  }

  lemma DrainsOnly(s: State, u: State)
    requires Inv(s) && u == s.(draining := u.draining)
    requires forall d | d in u.draining :: u.draining[d].mark <= |Submitted(u, u.draining[d].worker)|
    ensures Inv(u)
  {
    hide ViewOk, OfWorker, CountType, CounterOk, Submitted;
    SameCounters(s, u);
    forall w: Worker
      ensures WorkerOk(u, w)
    {
      assert WorkerOk(s, w);
      SameView(s, u, w);
    }
  }

  lemma SameView(s: State, u: State, w: Worker)
    requires u == s.(draining := u.draining)
    ensures ViewOf(u, w) == ViewOf(s, w)
  {
    hide OfWorker;
  }

  lemma StepKeeps(s: State, e: Event)
    requires Inv(s) && Enabled(s, e)
    ensures Inv(Step(s, e))
  {
    hide Inv, Submit, Pick, Process, Finish, DrainCall, DrainReturn, ReadCompletions;
    match e
    case SubmitJob(t, arg) => SubmitKeeps(s, t, arg);
    case PickJob(w) => PickKeeps(s, w);
    case ProcessJob(w) => ProcessKeeps(s, w);
    case FinishJob(w) => FinishKeeps(s, w);
    case CallDrain(thread, t) => DrainKeeps(s, thread, t);
    case ReturnDrain(thread) => DrainKeeps(s, thread, CloseFile);
    case ReadList => ReadKeeps(s);
  }

  predicate AllEnabled(s: State, events: seq<Event>)
    decreases |events|
  {
    events == [] || (Enabled(s, events[0]) && AllEnabled(Step(s, events[0]), events[1..]))
  }

  function Run(s: State, events: seq<Event>): State
    requires AllEnabled(s, events)
    decreases |events|
  {
    if events == [] then s else Run(Step(s, events[0]), events[1..])
  }

  lemma {:induction false} RunKeeps(s: State, events: seq<Event>)
    requires Inv(s) && AllEnabled(s, events)
    ensures Inv(Run(s, events))
    decreases |events|
  {
    hide Inv, Step, Enabled;
    if events != [] {
      StepKeeps(s, events[0]);
      RunKeeps(Step(s, events[0]), events[1..]);
    }
  }

  lemma InitInv()
    ensures Inv(INIT)
  {}

  // ---------- what follows ----------

  // In every interleaving: the counter of a type is the number of its jobs that wait or run, and a worker has processed
  // the jobs given to it in the order they were submitted, each once, as far as it has got.
  lemma EveryInterleaving(events: seq<Event>, w: Worker, t: JobType)
    requires AllEnabled(INIT, events)
    ensures var s := Run(INIT, events);
            && Number(s, t) == CountType(Jobs(s, WorkerOf(t)), t) && Number(s, t) >= 0
            && Processed(s, w) <= Submitted(s, w)
            && (forall i, j | 0 <= i < j < |Processed(s, w)| :: Processed(s, w)[i].id < Processed(s, w)[j].id)
  {
    InitInv();
    RunKeeps(INIT, events);
    var s := Run(INIT, events);
    assert WorkerOk(s, w) && CounterOk(s, t);
    hide Inv, Run;
    assert forall i | 0 <= i < |Processed(s, w)| :: Processed(s, w)[i] == Submitted(s, w)[i];
  }

  // A drain that has returned may be called again, and nothing else has changed: not what is queued, nor who drains.
  lemma DrainEnds(s: State, thread: nat, t: JobType, other: nat)
    requires Enabled(s, ReturnDrain(thread))
    ensures var u := Step(s, ReturnDrain(thread));
            && u == s.(draining := u.draining) && Enabled(u, CallDrain(thread, t))
            && (other != thread ==> (other in u.draining <==> other in s.draining)
                                    && (other in s.draining ==> u.draining[other] == s.draining[other]))
  {}

  // bioDrainWorker returns only when every job its worker had been given before the call is processed.
  lemma DrainWaits(events: seq<Event>, thread: nat)
    requires AllEnabled(INIT, events) && Enabled(Run(INIT, events), ReturnDrain(thread))
    ensures var s := Run(INIT, events);
            var d := s.draining[thread];
            d.mark <= |Processed(s, d.worker)| && Processed(s, d.worker) <= Submitted(s, d.worker)
  {
    InitInv();
    RunKeeps(INIT, events);
    var s := Run(INIT, events);
    var d := s.draining[thread];
    assert WorkerOk(s, d.worker);
    hide Inv, Run;
    var (given, n) := (Submitted(s, d.worker), |Processed(s, d.worker)|);
    if PhaseOf(s, d.worker).Done? {
      assert |given[n - 1..]| == 0;
    } else {
      assert |given[n..]| == 0;
    }
  }

  // ---------- completion requests ----------

  // A completion request that has been handed over, delivered or not, comes after everything its worker was given
  // before it: all of that has been processed.
  lemma CompletionIsLate(events: seq<Event>, k: nat)
    requires AllEnabled(INIT, events)
    requires var s := Run(INIT, events); k < |s.delivered + s.compList|
    ensures var s := Run(INIT, events);
            var job := (s.delivered + s.compList)[k];
            var w := WorkerOf(job.type');
            exists i | 0 <= i < |Processed(s, w)| && i < |Submitted(s, w)| ::
              Submitted(s, w)[i] == job && Processed(s, w)[..i] == Submitted(s, w)[..i]
  {
    InitInv();
    RunKeeps(INIT, events);
    var s := Run(INIT, events);
    var all := s.delivered + s.compList;
    var job := all[k];
    var w := WorkerOf(job.type');
    assert WorkerOk(s, w);
    hide Inv, Run;
    InOfWorker(all, w, k);
    InCompletions(Processed(s, w), job);
    var i :| 0 <= i < |Processed(s, w)| && Processed(s, w)[i] == job;
    assert Submitted(s, w)[i] == job && Processed(s, w)[..i] == Submitted(s, w)[..i];
  }

  // Of the jobs processed, exactly the completion requests are handed over to the main thread.
  lemma HandedOver(events: seq<Event>, w: Worker, job: Job)
    requires AllEnabled(INIT, events) && job in Processed(Run(INIT, events), w)
    ensures var s := Run(INIT, events);
            job in s.delivered + s.compList <==> job.type' in {CompRqCloseFile, CompRqAofFsync, CompRqLazyFree}
  {
    InitInv();
    RunKeeps(INIT, events);
    var s := Run(INIT, events);
    var all := s.delivered + s.compList;
    assert WorkerOk(s, w);
    hide Inv, Run, ViewOk, OfWorker, Completions;
    DoneIsGiven(ViewOf(s, w), w, s.next, job);
    GivenIsOf(ViewOf(s, w), w, s.next, job);
    PublishedIs(ViewOf(s, w), w, s.next);
    if job in all {
      var k :| 0 <= k < |all| && all[k] == job;
      InOfWorker(all, w, k);
    } else {
      NotOfWorker(all, w, job);
    }
    OnlyCompletions(Processed(s, w), job);
  }

  lemma PublishedIs(v: View, w: Worker, next: nat)
    requires ViewOk(v, w, next)
    ensures v.published == Completions(v.done)
  {}

  lemma {:induction false} NotOfWorker(q: seq<Job>, w: Worker, job: Job)
    requires job !in q
    ensures job !in OfWorker(q, w)
  {
    if q != [] {
      NotOfWorker(q[..|q| - 1], w, job);
    }
  }

  lemma {:induction false} OnlyCompletions(q: seq<Job>, job: Job)
    requires job in q
    ensures job in Completions(q) <==> IsCompletion(job.type')
  {
    var front := q[..|q| - 1];
    assert q == front + [q[|q| - 1]];
    if job in front {
      OnlyCompletions(front, job);
    } else if job in Completions(front) {
      InCompletions(front, job);
    }
  }

  lemma {:induction false} InOfWorker(q: seq<Job>, w: Worker, k: nat)
    requires k < |q| && WorkerOf(q[k].type') == w
    ensures q[k] in OfWorker(q, w)
  {
    if k < |q| - 1 {
      InOfWorker(q[..|q| - 1], w, k);
    }
  }

  lemma {:induction false} InCompletions(q: seq<Job>, job: Job)
    requires job in Completions(q)
    ensures job in q
  {
    if job in Completions(q[..|q| - 1]) {
      InCompletions(q[..|q| - 1], job);
    }
  }

  // ---------- jobs that must not overtake each other ----------

  // Syncing the append-only file, closing it and hearing that this is done; and the same for the other two workers.
  predicate Together(t: JobType, u: JobType)
  {
    || (t in {AofFsync, CloseAof, CompRqAofFsync} && u in {AofFsync, CloseAof, CompRqAofFsync})
    || (t in {CloseFile, CompRqCloseFile} && u in {CloseFile, CompRqCloseFile})
    || (t in {LazyFree, CompRqLazyFree} && u in {LazyFree, CompRqLazyFree})
  }

  // In every interleaving such jobs are processed in the order they were submitted: closing the append-only file never
  // comes before a sync submitted earlier, and a completion never before what it completes.
  lemma NeverOvertakes(events: seq<Event>, v: Worker, w: Worker, a: Job, b: Job)
    requires AllEnabled(INIT, events)
    requires var s := Run(INIT, events); a in Submitted(s, v) && b in Processed(s, w)
    requires Together(a.type', b.type') && a.id < b.id
    ensures a in Processed(Run(INIT, events), v)
  {
    InitInv();
    RunKeeps(INIT, events);
    var s := Run(INIT, events);
    assert WorkerOk(s, v) && WorkerOk(s, w);
    hide Inv, Run, ViewOk, Submitted, Processed, Jobs, OfWorker, PhaseOf, Together;
    GivenIsOf(ViewOf(s, v), v, s.next, a);
    DoneIsGiven(ViewOf(s, w), w, s.next, b);
    GivenIsOf(ViewOf(s, w), w, s.next, b);
    TogetherWorker(a.type', b.type');
    EarlierDone(ViewOf(s, w), w, s.next, a, b);
  }

  lemma TogetherWorker(t: JobType, u: JobType)
    requires Together(t, u)
    ensures WorkerOf(t) == WorkerOf(u)
  {}

  lemma GivenIsOf(v: View, w: Worker, next: nat, a: Job)
    requires ViewOk(v, w, next) && a in v.given
    ensures WorkerOf(a.type') == w
  {}

  lemma DoneIsGiven(v: View, w: Worker, next: nat, a: Job)
    requires ViewOk(v, w, next) && a in v.done
    ensures a in v.given
  {
    var i :| 0 <= i < |v.done| && v.done[i] == a;
    assert v.given[i] == a;
  }

  lemma EarlierDone(v: View, w: Worker, next: nat, a: Job, b: Job)
    requires ViewOk(v, w, next) && a in v.given && b in v.done && a.id < b.id
    ensures a in v.done
  {
    var i :| 0 <= i < |v.given| && v.given[i] == a;
    var j :| 0 <= j < |v.done| && v.done[j] == b;
    assert v.given[j] == b;
    assert i < j;
    assert v.done[i] == a;
  }

  // Everything given to a worker stays in the record of what it was given.
  lemma StepGiven(s: State, e: Event, w: Worker)
    requires Enabled(s, e)
    ensures Submitted(s, w) <= Submitted(Step(s, e), w)
  {}

  lemma StepDraining(s: State, e: Event, thread: nat)
    requires Enabled(s, e) && thread in s.draining && e != ReturnDrain(thread)
    ensures var t := Step(s, e);
            thread in t.draining && t.draining[thread] == s.draining[thread]
  {}

  // A thread that is draining goes on with that until it returns.
  lemma {:induction false} StillDraining(s: State, events: seq<Event>, thread: nat)
    requires AllEnabled(s, events) && thread in s.draining && ReturnDrain(thread) !in events
    ensures var t := Run(s, events);
            && thread in t.draining && t.draining[thread] == s.draining[thread]
            && forall w: Worker :: Submitted(s, w) <= Submitted(t, w)
    decreases |events|
  {
    hide Submitted, Step, Enabled;
    if events != [] {
      var t := Step(s, events[0]);
      StepDraining(s, events[0], thread);
      assert ReturnDrain(thread) !in events[1..] && events[0] != ReturnDrain(thread);
      forall w: Worker
        ensures Submitted(s, w) <= Submitted(t, w)
      {
        StepGiven(s, events[0], w);
      }
      StillDraining(t, events[1..], thread);
    }
  }

  // When a call of bioDrainWorker returns, every job that must not be overtaken by one of that type and had been
  // submitted before the call has been processed, whatever has happened in between.
  lemma DrainedBefore(events: seq<Event>, thread: nat, t: JobType, later: seq<Event>, w: Worker, a: Job)
    requires AllEnabled(INIT, events) && Enabled(Run(INIT, events), CallDrain(thread, t))
    requires var s := Step(Run(INIT, events), CallDrain(thread, t));
             AllEnabled(s, later) && ReturnDrain(thread) !in later && Enabled(Run(s, later), ReturnDrain(thread))
    requires a in Submitted(Run(INIT, events), w) && Together(a.type', t)
    ensures a in Processed(Run(Step(Run(INIT, events), CallDrain(thread, t)), later), w)
  {
    var s0 := Run(INIT, events);
    var s := Step(s0, CallDrain(thread, t));
    var u := Run(s, later);
    InitInv();
    RunKeeps(INIT, events);
    assert WorkerOk(s0, w);
    assert a in Submitted(s0, w) ==> w == WorkerOf(t);
    StillDraining(s, later, thread);
    RunSnocEvent(events, CallDrain(thread, t), later);
    DrainWaits(events + ([CallDrain(thread, t)] + later), thread);
    hide Inv, Run, AllEnabled, Submitted, Processed, Jobs;
    var i :| 0 <= i < |Submitted(s0, w)| && Submitted(s0, w)[i] == a;
    assert Processed(u, w)[i] == Submitted(u, w)[i] == a;
  }

  lemma RunSnocEvent(events: seq<Event>, e: Event, later: seq<Event>)
    requires AllEnabled(INIT, events) && Enabled(Run(INIT, events), e) && AllEnabled(Step(Run(INIT, events), e), later)
    ensures AllEnabled(INIT, events + ([e] + later))
    ensures Run(INIT, events + ([e] + later)) == Run(Step(Run(INIT, events), e), later)
  {
    hide Step, Enabled;
    RunFirst(Run(INIT, events), e, later);
    RunConcat(INIT, events, [e] + later);
  }

  // ---------- the inline mode ----------

  datatype Request = Request(t: JobType, arg: nat)

  // bioSubmitJob of the WASI build: the job is processed at once; no queue and no counter is involved.
  function SubmitInline(s: State, r: Request): State
  {
    var (w, job) := (WorkerOf(r.t), Job(s.next, r.t, r.arg));
    s.(processed := s.processed[w := Processed(s, w) + [job]],
       compList := if IsCompletion(r.t) then s.compList + [job] else s.compList,
       submitted := s.submitted[w := Submitted(s, w) + [job]], next := s.next + 1)
  }

  function RunInline(s: State, requests: seq<Request>): State
  {
    if requests == [] then s else SubmitInline(RunInline(s, requests[..|requests| - 1]), requests[|requests| - 1])
  }

  // What the rest of the server can see of the jobs that were done.
  predicate SameEffects(s: State, t: State)
  {
    && s.compList == t.compList && s.delivered == t.delivered && s.next == t.next
    && forall w: Worker :: Processed(s, w) == Processed(t, w) && Submitted(s, w) == Submitted(t, w)
  }

  // Four steps of the threaded mode do one job.
  function Eager(r: Request): seq<Event>
  {
    var w := WorkerOf(r.t);
    [SubmitJob(r.t, r.arg), PickJob(w), ProcessJob(w), FinishJob(w)]
  }

  function EagerRun(requests: seq<Request>): seq<Event>
  {
    if requests == [] then [] else EagerRun(requests[..|requests| - 1]) + Eager(requests[|requests| - 1])
  }

  lemma {:induction false} RunConcat(s: State, a: seq<Event>, b: seq<Event>)
    requires AllEnabled(s, a) && AllEnabled(Run(s, a), b)
    ensures AllEnabled(s, a + b) && Run(s, a + b) == Run(Run(s, a), b)
    decreases |a|
  {
    hide Step, Enabled;
    if a == [] {
      assert a + b == b;
    } else {
      assert (a + b)[1..] == a[1..] + b;
      RunConcat(Step(s, a[0]), a[1..], b);
    }
  }

  predicate AllIdle(s: State) { forall w: Worker :: PhaseOf(s, w).Idle? && Jobs(s, w) == [] }

  lemma RunFirst(s: State, e: Event, rest: seq<Event>)
    requires Enabled(s, e) && AllEnabled(Step(s, e), rest)
    ensures AllEnabled(s, [e] + rest) && Run(s, [e] + rest) == Run(Step(s, e), rest)
  {
    hide Step, Enabled;
    assert ([e] + rest)[1..] == rest;
  }

  // The state after submitting, picking, processing and finishing one job.
  function EagerState(s: State, r: Request): State
    requires AllIdle(s)
  {
    var w := WorkerOf(r.t);
    Finish(Process(Pick(Submit(s, r.t, r.arg), w), w), w)
  }

  lemma EagerRuns(s: State, r: Request)
    requires AllIdle(s)
    ensures AllEnabled(s, Eager(r)) && Run(s, Eager(r)) == EagerState(s, r)
  {
    var w := WorkerOf(r.t);
    var s1 := Submit(s, r.t, r.arg);
    var s2 := Pick(s1, w);
    var s3 := Process(s2, w);
    hide Submit, Pick, Process, Finish;
    RunFirst(s3, FinishJob(w), []);
    RunFirst(s2, ProcessJob(w), [FinishJob(w)]);
    RunFirst(s1, PickJob(w), [ProcessJob(w), FinishJob(w)]);
    RunFirst(s, SubmitJob(r.t, r.arg), [PickJob(w), ProcessJob(w), FinishJob(w)]);
    assert [FinishJob(w)] + [] == [FinishJob(w)];
  }

  lemma EagerWorker(s: State, t: State, r: Request, x: Worker)
    requires AllIdle(s) && Processed(s, x) == Processed(t, x) && Submitted(s, x) == Submitted(t, x) && s.next == t.next
    ensures var (u, v) := (EagerState(s, r), SubmitInline(t, r));
            && PhaseOf(u, x).Idle? && Jobs(u, x) == []
            && Processed(u, x) == Processed(v, x) && Submitted(u, x) == Submitted(v, x)
  {
    hide EagerState, SubmitInline, Processed, Submitted, PhaseOf, Jobs;
    EagerIdle(s, r, x);
    if x == WorkerOf(r.t) {
      EagerHere(s, t, r);
    } else {
      EagerElsewhere(s, t, r, x);
    }
  }

  lemma EagerHere(s: State, t: State, r: Request)
    requires var x := WorkerOf(r.t); Processed(s, x) == Processed(t, x) && Submitted(s, x) == Submitted(t, x)
    requires AllIdle(s) && s.next == t.next
    ensures var (u, v, x) := (EagerState(s, r), SubmitInline(t, r), WorkerOf(r.t));
            Processed(u, x) == Processed(v, x) && Submitted(u, x) == Submitted(v, x)
  {
    assert PhaseOf(s, WorkerOf(r.t)).Idle? && Jobs(s, WorkerOf(r.t)) == [];
  }

  lemma EagerElsewhere(s: State, t: State, r: Request, x: Worker)
    requires AllIdle(s) && x != WorkerOf(r.t)
    requires Processed(s, x) == Processed(t, x) && Submitted(s, x) == Submitted(t, x)
    ensures var (u, v) := (EagerState(s, r), SubmitInline(t, r));
            Processed(u, x) == Processed(v, x) && Submitted(u, x) == Submitted(v, x)
  {
    assert PhaseOf(s, WorkerOf(r.t)).Idle? && Jobs(s, WorkerOf(r.t)) == [];
  }

  lemma EagerIdle(s: State, r: Request, x: Worker)
    requires AllIdle(s)
    ensures PhaseOf(EagerState(s, r), x).Idle? && Jobs(EagerState(s, r), x) == []
  {
    assert PhaseOf(s, WorkerOf(r.t)).Idle? && Jobs(s, WorkerOf(r.t)) == [];
    assert PhaseOf(s, x).Idle? && Jobs(s, x) == [];
  }

  lemma EagerLists(s: State, t: State, r: Request)
    requires AllIdle(s) && s.compList == t.compList && s.delivered == t.delivered && s.next == t.next
    ensures var (u, v) := (EagerState(s, r), SubmitInline(t, r));
            u.compList == v.compList && u.delivered == v.delivered && u.next == v.next
  {
    assert PhaseOf(s, WorkerOf(r.t)).Idle? && Jobs(s, WorkerOf(r.t)) == [];
  }

  lemma EagerStep(s: State, t: State, r: Request)
    requires AllIdle(s) && SameEffects(s, t)
    ensures AllEnabled(s, Eager(r)) && AllIdle(Run(s, Eager(r)))
    ensures SameEffects(Run(s, Eager(r)), SubmitInline(t, r))
  {
    hide Run, AllEnabled, EagerState, SubmitInline, Processed, Submitted;
    EagerRuns(s, r);
    EagerLists(s, t, r);
    var (u, v) := (EagerState(s, r), SubmitInline(t, r));
    forall x: Worker
      ensures PhaseOf(u, x).Idle? && Jobs(u, x) == []
      ensures Processed(u, x) == Processed(v, x) && Submitted(u, x) == Submitted(v, x)
    {
      assert Processed(s, x) == Processed(t, x) && Submitted(s, x) == Submitted(t, x);
      EagerWorker(s, t, r, x);
    }
  }

  // The inline mode does what the threaded mode can do too: there is an interleaving with the same jobs processed by
  // each worker, in the same order, and the same completion requests.
  lemma {:induction false} InlineIsThreaded(requests: seq<Request>)
    ensures AllEnabled(INIT, EagerRun(requests)) && AllIdle(Run(INIT, EagerRun(requests)))
    ensures SameEffects(Run(INIT, EagerRun(requests)), RunInline(INIT, requests))
    decreases |requests|
  {
    hide Eager, SubmitInline, SameEffects, AllIdle;
    if requests == [] {
      Nothing();
    } else {
      var (front, r) := (requests[..|requests| - 1], requests[|requests| - 1]);
      InlineIsThreaded(front);
      var s := Run(INIT, EagerRun(front));
      EagerStep(s, RunInline(INIT, front), r);
      RunConcat(INIT, EagerRun(front), Eager(r));
    }
  }

  lemma Nothing()
    ensures AllIdle(INIT) && SameEffects(INIT, INIT)
  {}

  // ---------- in place ----------

  // The shared variables; each method is one critical section, or the work between two.
  class BioState {
    var jobs: map<Worker, seq<Job>>
    var counter: map<JobType, int>
    var phase: map<Worker, Phase>
    var compList: seq<Job>
    var delivered: seq<Job>
    ghost var draining: map<nat, Drain>
    ghost var submitted: map<Worker, seq<Job>>
    ghost var processed: map<Worker, seq<Job>>
    var next: nat

    ghost function Value(): State
      reads this
    {
      State(jobs, counter, phase, compList, delivered, draining, submitted, processed, next)
    }

    // bioInit
    constructor ()
      ensures Value() == INIT
    {
      jobs, counter, phase, compList, delivered, next := map[], map[], map[], [], [], 0;
      draining, submitted, processed := map[], map[], map[];
    }

    // bioSubmitJob
    method SubmitJob(t: JobType, arg: nat)
      modifies this
      ensures Value() == Submit(old(Value()), t, arg)
    {
      hide WorkerOf;
      var worker := WorkerOf(t);
      var job := Job(next, t, arg);
      submitted := submitted[worker := Submitted(Value(), worker) + [job]];
      next := next + 1;
      jobs := jobs[worker := (if worker in jobs then jobs[worker] else []) + [job]];
      counter := counter[t := (if t in counter then counter[t] else 0) + 1];
    }

    // bioSubmitJob of the WASI build
    method SubmitJobInline(t: JobType, arg: nat)
      modifies this
      ensures Value() == SubmitInline(old(Value()), Request(t, arg))
    {
      var job := Job(next, t, arg);
      submitted := submitted[WorkerOf(t) := Submitted(Value(), WorkerOf(t)) + [job]];
      next := next + 1;
      ProcessJob(job);
    }

    // bioProcessJob, as far as other threads can see it
    method ProcessJob(job: Job)
      modifies this
      ensures var w := WorkerOf(job.type');
              Value() == old(Value()).(
                processed := old(processed)[w := Processed(old(Value()), w) + [job]],
                compList := if IsCompletion(job.type') then old(compList) + [job] else old(compList))
    {
      processed := processed[WorkerOf(job.type') := Processed(Value(), WorkerOf(job.type')) + [job]];
      if IsCompletion(job.type') {
        compList := compList + [job];
      }
    }

    // The first half of a turn of bioProcessBackgroundJobs: false when there is nothing to do but wait.
    method PickJob(worker: Worker) returns (picked: bool)
      requires worker in phase ==> phase[worker].Idle?
      modifies this
      ensures picked <==> old(Jobs(Value(), worker)) != []
      ensures Value() == if picked then Pick(old(Value()), worker) else old(Value())
    {
      var queue := if worker in jobs then jobs[worker] else [];
      if |queue| == 0 {
        return false;
      }
      phase := phase[worker := Running(queue[0])];
      picked := true;
    }

    // The work, without the mutex.
    method RunJob(worker: Worker)
      requires worker in phase && phase[worker].Running? && WorkerOf(phase[worker].job.type') == worker
      modifies this
      ensures Value() == Process(old(Value()), worker)
    {
      var job := phase[worker].job;
      ProcessJob(job);
      phase := phase[worker := Done(job)];
    }

    // The second half: the node leaves the queue and the counter goes down.
    method FinishJob(worker: Worker)
      requires worker in phase && phase[worker].Done? && worker in jobs && jobs[worker] != []
      modifies this
      ensures Value() == Finish(old(Value()), worker)
    {
      var t := phase[worker].job.type';
      jobs := jobs[worker := jobs[worker][1..]];
      counter := counter[t := (if t in counter then counter[t] else 0) - 1];
      phase := phase[worker := Idle];
    }

    // bioPendingJobsOfType
    method PendingJobsOfType(t: JobType) returns (val: int)
      requires Inv(Value())
      ensures val == CountType(Jobs(Value(), WorkerOf(t)), t)
    {
      assert CounterOk(Value(), t);
      val := if t in counter then counter[t] else 0;
    }

    // bioPipeReadJobCompList
    method PipeReadJobCompList()
      modifies this
      ensures Value() == ReadCompletions(old(Value()))
    {
      if |compList| == 0 {
        assert delivered + compList == delivered;
        return;
      }
      var tmpList := compList;
      compList := [];
      while |tmpList| > 0
        invariant delivered + tmpList == old(delivered + compList)
        invariant Value() == old(Value()).(compList := [], delivered := delivered)
      {
        var rsp := tmpList[0];
        tmpList := tmpList[1..];
        delivered := delivered + [rsp];
      }
      assert delivered + [] == delivered;
    }
  }
}
