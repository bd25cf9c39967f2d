/** `CalendarRepository`: a process-wide single instance that forwards reads to
    the DAO and hands every write to a single-thread executor.

    The DAO is not part of this model. Its store is the type parameter `S`, and
    what one write does to the store is the parameter `dao`. Nothing is assumed
    about either. The executor is a FIFO queue of pending commands that runs
    them one at a time. */
module CalendarRepository {
  import opened Wrappers
  import opened Calendar

  /** A write as queued on the executor: the DAO method to call and its argument. */
  datatype Command = Add(event: Event) | Remove(event: Event) | Update(event: Event)

  /** A read as handed to the DAO: the DAO method to call and its arguments. */
  datatype Query =
    | AllEvents
    | EventById(id: Uuid)
    | EventsBetween(start: Date, end: Date)
    | EventsOnDay(day: Date)

  /** A call of one of the repository's public instance methods:
      `getAllEvents`, `getEventById`, `getEventsBetween` and `getEventsOnDay`
      are reads; `addEvent`, `removeEvent` and `updateEvent` are writes. */
  datatype Call = Read(query: Query) | Write(command: Command)

  /** What a call hands back: a read returns the live query bound to the DAO;
      a write returns nothing. */
  datatype Response = Subscribed(query: Query) | Queued

  /** The Android application context the instance was built from. */
  type Context = nat

  /** The effect of one write on the DAO's store. */
  type Dao<!S> = (S, Command) -> S

  /** One repository instance: the context that built it, its database, and
      the commands waiting on its executor, oldest first. */
  datatype Repository<S> = Repository(context: Context, database: S, executor: seq<Command>)

  /** The static `INSTANCE` field; `None` is `null`. */
  datatype Process<S> = Process(instance: Option<Repository<S>>)

  const MustBeInitialized: string := "CalendarRepository must be initialized"

  /** The state the store reaches once every command in `commands` has been
      applied, first to last. */
  function Apply<S>(dao: Dao<S>, db: S, commands: seq<Command>): S
    decreases |commands|
  {
    if commands == [] then db else Apply(dao, dao(db, commands[0]), commands[1..])
  }

  /** The store a repository will hold once its executor has run dry. */
  function Settled<S>(dao: Dao<S>, r: Repository<S>): S
  {
    Apply(dao, r.database, r.executor)
  }

  /** The write commands among `calls`, in call order. */
  function Writes(calls: seq<Call>): seq<Command>
  {
    if calls == [] then []
    else (if calls[0].Write? then [calls[0].command] else []) + Writes(calls[1..])
  }

  // ---------------------------------------------------------------------
  // The singleton

  /** `get`: the instance, or `IllegalStateException` while there is none. */
  function Get<S>(p: Process<S>): (r: Result<Repository<S>, Error>)
    ensures r.Failure? <==> p.instance.None?
    ensures r.Failure? ==> r.error == IllegalState(MustBeInitialized)
    ensures r.Success? ==> p.instance == Some(r.value)
  {
    match p.instance
    case None => Failure(IllegalState(MustBeInitialized))
    case Some(repo) => Success(repo)
  }

  /** `initialize`: build an instance from `context` only if there is none yet.
      `built` is the store that the database builder opens. */
  function Initialize<S>(p: Process<S>, context: Context, built: S): (r: Process<S>)
    ensures r.instance.Some?
    ensures p.instance.Some? ==> r == p
    ensures p.instance.None? ==> r.instance == Some(Repository(context, built, []))
  {
    if p.instance.None? then Process(Some(Repository(context, built, []))) else p
  }

  /** Calling `initialize` once per element of `contexts`, in order. */
  function InitializeAll<S>(p: Process<S>, contexts: seq<Context>, built: S): Process<S>
    decreases |contexts|
  {
    if contexts == [] then p else InitializeAll(Initialize(p, contexts[0], built), contexts[1..], built)
  }

  /** A second `initialize` changes nothing. */
  lemma InitializeIdempotent<S>(p: Process<S>, c1: Context, c2: Context, d1: S, d2: S)
    ensures Initialize(Initialize(p, c1, d1), c2, d2) == Initialize(p, c1, d1)
  {
  }

  /** However many times `initialize` runs on a fresh process, `get` returns the
      instance the first call built. */
  lemma {:induction false} FirstInitializeWins<S>(contexts: seq<Context>, built: S)
    requires |contexts| > 0
    ensures Get(InitializeAll(Process(None), contexts, built)) == Success(Repository(contexts[0], built, []))
  {
    var p := Initialize(Process(None), contexts[0], built);
    InitializeAllKeeps(p, contexts[1..], built);
  }

  /** On a process that already has an instance, any run of `initialize` calls
      leaves it untouched. */
  lemma {:induction false} InitializeAllKeeps<S>(p: Process<S>, contexts: seq<Context>, built: S)
    requires p.instance.Some?
    ensures InitializeAll(p, contexts, built) == p
    decreases |contexts|
  {
    if contexts != [] {
      InitializeAllKeeps(Initialize(p, contexts[0], built), contexts[1..], built);
    }
  }

  // ---------------------------------------------------------------------
  // Calls on the instance

  /** One public instance method. A read returns the DAO's query with the
      caller's arguments and queues nothing; a write puts exactly one command,
      carrying the caller's event, at the back of the executor queue and applies
      nothing yet. */
  function Perform<S>(r: Repository<S>, call: Call): (out: (Repository<S>, Response))
    ensures out.0.context == r.context && out.0.database == r.database
    ensures call.Read? ==> out.0 == r && out.1 == Subscribed(call.query)
    ensures call.Write? ==> out.0.executor == r.executor + [call.command] && out.1 == Queued
  {
    match call
    case Read(q) => (r, Subscribed(q))
    case Write(c) => (r.(executor := r.executor + [c]), Queued)
  }

  /** Calls made one after another on the same instance. */
  function PerformAll<S>(r: Repository<S>, calls: seq<Call>): Repository<S>
    decreases |calls|
  {
    if calls == [] then r else PerformAll(Perform(r, calls[0]).0, calls[1..])
  }

  /** A run of calls changes only the executor queue, and extends it by exactly
      the writes among the calls, in call order; reads leave no trace. */
  lemma {:induction false} PerformAllQueuesWrites<S>(r: Repository<S>, calls: seq<Call>)
    ensures PerformAll(r, calls) == r.(executor := r.executor + Writes(calls))
    decreases |calls|
  {
    if calls == [] {
      assert r.executor + [] == r.executor;
    } else {
      var w := if calls[0].Write? then [calls[0].command] else [];
      var r1 := Perform(r, calls[0]).0;
      assert r1 == r.(executor := r.executor + w);
      PerformAllQueuesWrites(r1, calls[1..]);
      assert Writes(calls) == w + Writes(calls[1..]);
      assert r1.executor + Writes(calls[1..]) == r.executor + Writes(calls);
    }
  }

  /** `CalendarRepository.get().addEvent(e)` (and the like), as the fragments
      call it: fails with no effect while there is no instance, and otherwise
      queues `command` on the one instance, which keeps its identity. */
  function Submit<S>(p: Process<S>, command: Command): (r: Result<Process<S>, Error>)
    ensures r.Failure? <==> p.instance.None?
    ensures r.Failure? ==> r.error == IllegalState(MustBeInitialized)
    ensures r.Success? ==> r.value.instance.Some?
    ensures r.Success? ==> r.value.instance.value.context == p.instance.value.context
    ensures r.Success? ==> r.value.instance.value.database == p.instance.value.database
    ensures r.Success? ==> r.value.instance.value.executor == p.instance.value.executor + [command]
  {
    match Get(p)
    case Failure(e) => Failure(e)
    case Success(repo) => Success(Process(Some(Perform(repo, Write(command)).0)))
  }

  /** Something the rest of the app does to the process: call `initialize`,
      or call one write through `CalendarRepository.get()`. */
  datatype Action<S> = Init(context: Context, built: S) | Issue(command: Command)

  /** Actions taken one after another; a write that throws leaves the process as it was. */
  function RunActions<S>(p: Process<S>, actions: seq<Action<S>>): Process<S>
    decreases |actions|
  {
    if actions == [] then p
    else
      var next := match actions[0]
        case Init(c, b) => Initialize(p, c, b)
        case Issue(cmd) => match Submit(p, cmd)
          case Success(p') => p'
          case Failure(_) => p;
      RunActions(next, actions[1..])
  }

  /** The writes issued among `actions`, in order. */
  function Issued<S>(actions: seq<Action<S>>): seq<Command>
  {
    if actions == [] then []
    else (if actions[0].Issue? then [actions[0].command] else []) + Issued(actions[1..])
  }

  /** Once an instance exists, every later `get` returns that same instance
      (same context, same store) whatever `initialize` calls and writes
      follow; its queue has grown by exactly the writes, in order. */
  lemma {:induction false} GetKeepsInstance<S>(p: Process<S>, actions: seq<Action<S>>)
    requires p.instance.Some?
    ensures Get(RunActions(p, actions)).Success?
    ensures var repo := p.instance.value;
      Get(RunActions(p, actions)).value == repo.(executor := repo.executor + Issued(actions))
    decreases |actions|
  {
    var repo := p.instance.value;
    if actions == [] {
      assert repo.executor + [] == repo.executor;
    } else {
      var w := if actions[0].Issue? then [actions[0].command] else [];
      var p1 := Process(Some(repo.(executor := repo.executor + w)));
      if actions[0].Init? {
        assert repo.executor + w == repo.executor;
      }
      assert RunActions(p, actions) == RunActions(p1, actions[1..]);
      GetKeepsInstance(p1, actions[1..]);
      assert Issued(actions) == w + Issued(actions[1..]);
      assert repo.executor + w + Issued(actions[1..]) == repo.executor + Issued(actions);
    }
  }

  // ---------------------------------------------------------------------
  // The single-thread executor

  /** The executor runs the oldest pending command against the store, or idles
      when nothing is pending. */
  function RunNext<S>(dao: Dao<S>, r: Repository<S>): (r': Repository<S>)
    ensures r'.context == r.context
    ensures |r.executor| > 0 ==> r'.executor == r.executor[1..] && r'.database == dao(r.database, r.executor[0])
    ensures |r.executor| == 0 ==> r' == r
  {
    if r.executor == [] then r
    else r.(database := dao(r.database, r.executor[0]), executor := r.executor[1..])
  }

  /** The executor runs `n` times. */
  function RunMany<S>(dao: Dao<S>, r: Repository<S>, n: nat): Repository<S>
    decreases n
  {
    if n == 0 then r else RunMany(dao, RunNext(dao, r), n - 1)
  }

  /** The repository once its queue has run dry: every pending command folded
      over the store, oldest first. */
  function Drain<S>(dao: Dao<S>, r: Repository<S>): Repository<S>
  {
    r.(database := Settled(dao, r), executor := [])
  }

  /** Running one pending command does not change where the queue ends up. */
  lemma RunNextKeepsSettled<S>(dao: Dao<S>, r: Repository<S>)
    ensures Settled(dao, RunNext(dao, r)) == Settled(dao, r)
  {
  }

  /** Applying a queue that was extended at the back is applying the old queue
      and then the new commands. */
  lemma {:induction false} ApplyAppend<S>(dao: Dao<S>, db: S, first: seq<Command>, second: seq<Command>)
    ensures Apply(dao, db, first + second) == Apply(dao, Apply(dao, db, first), second)
    decreases |first|
  {
    if first == [] {
      assert first + second == second;
    } else {
      assert (first + second)[1..] == first[1..] + second;
      ApplyAppend(dao, dao(db, first[0]), first[1..], second);
    }
  }

  /** Running `n` commands moves them from the queue into the store without
      changing the settled state, and leaves the rest queued in order. */
  lemma {:induction false} RunManyMovesPrefix<S>(dao: Dao<S>, r: Repository<S>, n: nat)
    requires n <= |r.executor|
    ensures RunMany(dao, r, n).executor == r.executor[n..]
    ensures RunMany(dao, r, n).database == Apply(dao, r.database, r.executor[..n])
    ensures RunMany(dao, r, n).context == r.context
    decreases n
  {
    if n > 0 {
      var r1 := RunNext(dao, r);
      RunManyMovesPrefix(dao, r1, n - 1);
      assert r1.executor[n - 1..] == r.executor[n..];
      assert r1.executor[..n - 1] == r.executor[..n][1..];
    }
  }

  /** The single-thread executor, run once per pending command, ends exactly
      where folding the queue over the store in FIFO order ends. */
  lemma {:induction false} ExecutorRunsToDrain<S>(dao: Dao<S>, r: Repository<S>)
    ensures RunMany(dao, r, |r.executor|) == Drain(dao, r)
  {
    RunManyMovesPrefix(dao, r, |r.executor|);
    assert r.executor[..|r.executor|] == r.executor;
  }

  /** One step of a run: a public call by some caller, or the executor running once. */
  datatype Tick = Caller(call: Call) | Worker

  /** Callers and the executor interleaving in the order given by `ticks`. */
  function Play<S>(dao: Dao<S>, r: Repository<S>, ticks: seq<Tick>): Repository<S>
    decreases |ticks|
  {
    if ticks == [] then r
    else
      var next := match ticks[0]
        case Caller(c) => Perform(r, c).0
        case Worker => RunNext(dao, r);
      Play(dao, next, ticks[1..])
  }

  /** The calls made in `ticks`, in order. */
  function CallsOf(ticks: seq<Tick>): seq<Call>
  {
    if ticks == [] then []
    else (if ticks[0].Caller? then [ticks[0].call] else []) + CallsOf(ticks[1..])
  }

  /** However the executor's runs interleave with the callers, once the queue
      is drained the store holds every write applied exactly once, in call
      order, after the writes that were already pending. */
  lemma {:induction false} InterleavingIsCallOrder<S>(dao: Dao<S>, r: Repository<S>, ticks: seq<Tick>)
    ensures Settled(dao, Play(dao, r, ticks)) == Apply(dao, Settled(dao, r), Writes(CallsOf(ticks)))
    ensures Drain(dao, Play(dao, r, ticks)).database == Apply(dao, r.database, r.executor + Writes(CallsOf(ticks)))
    decreases |ticks|
  {
    var settled := Apply(dao, Settled(dao, r), Writes(CallsOf(ticks)));
    if ticks == [] {
      assert CallsOf(ticks) == [];
    } else {
      var rest := ticks[1..];
      match ticks[0]
      case Caller(c) => {
        var r1 := Perform(r, c).0;
        InterleavingIsCallOrder(dao, r1, rest);
        assert CallsOf(ticks) == [c] + CallsOf(rest);
        WritesAppend([c], CallsOf(rest));
        ApplyAppend(dao, r.database, r.executor, Writes([c]));
        ApplyAppend(dao, Settled(dao, r), Writes([c]), Writes(CallsOf(rest)));
        assert r1.executor == r.executor + Writes([c]);
      }
      case Worker => {
        RunNextKeepsSettled(dao, r);
        InterleavingIsCallOrder(dao, RunNext(dao, r), rest);
        assert CallsOf(ticks) == CallsOf(rest);
      }
    }
    ApplyAppend(dao, r.database, r.executor, Writes(CallsOf(ticks)));
  }

  /** The writes of consecutive runs of calls are the writes of each, in order. */
  lemma {:induction false} WritesAppend(a: seq<Call>, b: seq<Call>)
    ensures Writes(a + b) == Writes(a) + Writes(b)
    decreases |a|
  {
    if a == [] {
      assert a + b == b;
    } else {
      assert (a + b)[1..] == a[1..] + b;
      WritesAppend(a[1..], b);
    }
  }
}
