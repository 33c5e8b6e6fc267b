/** Many hooks at once, with subscriptions coming and going: what the log table holds. */
module HookLogs {
  import opened Hooks

  /** A hook in progress: the subscription it was started for, the attempts made and their statuses, whether
      another is due, and whether its subscription was stored when it was started. */
  datatype HookRun = HookRun(subscription: string, statuses: seq<Status>, due: bool, known: bool)

  /** `gone` remembers deleted subscriptions: the database never gives a key twice. */
  datatype World = World(tables: Tables, runs: map<string, HookRun>, gone: set<string>)

  datatype Event =
    | Stored(subscription: string)
    | Dropped(subscription: string)
    | Started(hook: string, subscription: string)
    | Executed(hook: string, outcome: Outcome)

  datatype Settings = Settings(limit: int, base: real)

  ghost predicate Enabled(w: World, ev: Event) {
    match ev
    case Stored(u) => u !in w.tables.subscriptions && u !in w.gone
    case Dropped(u) => u in w.tables.subscriptions
    case Started(hook, _) => hook !in w.runs
    case Executed(hook, _) => hook in w.runs && w.runs[hook].due
  }

  function NextAttempt(run: HookRun, outcome: Outcome, c: Settings): Attempt {
    Attempted(|run.statuses|, c.limit, c.base, outcome)
  }

  function Insertion(w: World, hook: string, outcome: Outcome, c: Settings): (Tables, Hooks.Insertion)
    requires hook in w.runs
  {
    var a := NextAttempt(w.runs[hook], outcome, c);
    Insert(w.tables, (hook, a.number), Log(w.runs[hook].subscription, a.status, c.limit))
  }

  function Occur(w: World, ev: Event, c: Settings): World {
    match ev
    case Stored(u) => w.(tables := w.tables.(subscriptions := w.tables.subscriptions + {u}))
    case Dropped(u) => w.(tables := Cascade(w.tables, u), gone := w.gone + {u})
    case Started(hook, u) => w.(runs := w.runs[hook := HookRun(u, [], true, u in w.tables.subscriptions)])
    case Executed(hook, outcome) =>
      if hook !in w.runs then w
      else
        var run := w.runs[hook];
        var a := NextAttempt(run, outcome, c);
        w.(tables := Insertion(w, hook, outcome, c).0,
           runs := w.runs[hook := run.(statuses := run.statuses + [a.status], due := a.countdown.Some?)])
  }

  /** The row an attempt of a run writes. */
  predicate IsLogOf(log: Log, run: HookRun, n: nat, c: Settings) {
    1 <= n <= |run.statuses| && log == Log(run.subscription, run.statuses[n - 1], c.limit)
  }

  ghost predicate Consistent(w: World, c: Settings) {
    && w.tables.subscriptions !! w.gone
    && (forall hook: string, n: nat :: (hook, n) in w.tables.logs ==>
          && hook in w.runs && IsLogOf(w.tables.logs[(hook, n)], w.runs[hook], n, c)
          && w.runs[hook].subscription in w.tables.subscriptions)
    && (forall hook :: hook in w.runs && w.runs[hook].known ==>
          w.runs[hook].subscription in w.tables.subscriptions || w.runs[hook].subscription in w.gone)
    && (forall hook: string, n: nat | hook in w.runs && w.runs[hook].known
        && w.runs[hook].subscription in w.tables.subscriptions
          && 1 <= n <= |w.runs[hook].statuses| :: (hook, n) in w.tables.logs)
    && (forall hook :: hook in w.runs ==> ProperRun(w.runs[hook], c))
  }

  /** Failures only while another attempt is due; then exactly one final success or error. */
  ghost predicate ProperRun(run: HookRun, c: Settings) {
    var n := |run.statuses|;
    && (forall i :: 0 <= i < n - 1 ==> run.statuses[i] == Failure)
    && (n > 0 ==> (run.due <==> run.statuses[n - 1] == Failure))
    && (n == 0 ==> run.due)
    && (n <= c.limit || n <= 1) && (run.due && n > 0 ==> n < c.limit)
  }

  /** The insertion of an attempt's log never hits a key already there: it succeeds, or the subscription is
      missing, which is only a warning. */
  lemma InsertionNeverCollides(w: World, hook: string, outcome: Outcome, c: Settings)
    requires Consistent(w, c) && Enabled(w, Executed(hook, outcome))
    ensures Insertion(w, hook, outcome, c).1
         == if w.runs[hook].subscription in w.tables.subscriptions then Inserted else ForeignKeyViolation
  {
    var a := NextAttempt(w.runs[hook], outcome, c);
    assert (hook, a.number) !in w.tables.logs;
  }

  lemma ExecutedRun(run: HookRun, outcome: Outcome, c: Settings)
    requires ProperRun(run, c) && run.due
    ensures var a := NextAttempt(run, outcome, c);
            ProperRun(run.(statuses := run.statuses + [a.status], due := a.countdown.Some?), c)
  {
  }

  /** Whatever happens, every stored log refers to a stored subscription and to an attempt really made, once;
      and a subscription that was there from the start of a hook keeps all of the hook's logs until it goes. */
  lemma OccurKeepsConsistent(w: World, ev: Event, c: Settings)
    requires Consistent(w, c) && Enabled(w, ev)
    ensures Consistent(Occur(w, ev, c), c)
  {
    var w' := Occur(w, ev, c);
    if ev.Executed? {
      InsertionNeverCollides(w, ev.hook, ev.outcome, c);
      ExecutedRun(w.runs[ev.hook], ev.outcome, c);
      var run, run' := w.runs[ev.hook], w'.runs[ev.hook];
      assert forall i :: 0 <= i < |run.statuses| ==> run'.statuses[i] == run.statuses[i];
    }
  }

  function History(w: World, events: seq<Event>, c: Settings): World {
    if events == [] then w else Occur(History(w, events[..|events| - 1], c), events[|events| - 1], c)
  }

  function Executions(events: seq<Event>, hook: string): nat {
    if events == [] then 0
    else
      var last := events[|events| - 1];
      Executions(events[..|events| - 1], hook) + if last.Executed? && last.hook == hook then 1 else 0
  }

  /** Each hook started belongs to its subscription and has one status for each execution. */
  ghost predicate RunsTold(runs: map<string, HookRun>, events: seq<Event>) {
    && (forall hook, u :: Started(hook, u) in events ==> hook in runs && runs[hook].subscription == u)
    && (forall hook :: hook in runs ==> Started(hook, runs[hook].subscription) in events)
    && (forall hook :: Executions(events, hook) == if hook in runs then |runs[hook].statuses| else 0)
  }

  /** The subscriptions stored are those stored and not dropped since. */
  ghost predicate SubscriptionsTold(stored: set<string>, gone: set<string>, events: seq<Event>) {
    && (forall u :: u in stored <==> Stored(u) in events && Dropped(u) !in events)
    && (forall u :: u in gone <==> Dropped(u) in events)
    && (forall u :: Dropped(u) in events ==> Stored(u) in events)
  }

  lemma ExecutionsMore(init: seq<Event>, ev: Event, events: seq<Event>, hook: string)
    requires events == init + [ev]
    ensures Executions(events, hook) == Executions(init, hook) + if ev.Executed? && ev.hook == hook then 1 else 0
  {
    assert events[..|events| - 1] == init;
  }

  lemma RunsToldStep(w: World, init: seq<Event>, ev: Event, events: seq<Event>, runs: map<string, HookRun>, c: Settings)
    requires RunsTold(w.runs, init) && Enabled(w, ev) && events == init + [ev] && runs == Occur(w, ev, c).runs
    ensures RunsTold(runs, events)
  {
    forall hook ensures Executions(events, hook) == if hook in runs then |runs[hook].statuses| else 0 {
      ExecutionsMore(init, ev, events, hook);
    }
    assert forall x :: x in events <==> x in init || x == ev;
  }

  lemma SubscriptionsToldStep(w: World, init: seq<Event>, ev: Event, events: seq<Event>, w': World, c: Settings)
    requires SubscriptionsTold(w.tables.subscriptions, w.gone, init) && Enabled(w, ev)
    requires events == init + [ev] && w' == Occur(w, ev, c)
    ensures SubscriptionsTold(w'.tables.subscriptions, w'.gone, events)
  {
    assert forall x :: x in events <==> x in init || x == ev;
  }

  const EMPTY := World(Tables({}, map[]), map[], {})

  ghost predicate EnabledAll(events: seq<Event>, c: Settings) {
    forall i :: 0 <= i < |events| ==> Enabled(History(EMPTY, events[..i], c), events[i])
  }

  lemma EnabledPrefix(events: seq<Event>, n: nat, c: Settings)
    requires EnabledAll(events, c) && n <= |events|
    ensures EnabledAll(events[..n], c)
  {
    forall i | 0 <= i < n ensures Enabled(History(EMPTY, events[..n][..i], c), events[..n][i]) {
      assert events[..n][..i] == events[..i];
    }
  }

  /** Over any interleaving of hooks, subscriptions stored and deletions, from empty tables: every log row
      belongs to a stored subscription and to one attempt of one hook, and whenever a hook is about to log, its
      key is free. */
  lemma {:induction false} HistoryConsistent(events: seq<Event>, end: World, c: Settings)
    requires EnabledAll(events, c) && end == History(EMPTY, events, c)
    ensures Consistent(end, c)
  {
    if events != [] {
      var n := |events| - 1;
      var here := History(EMPTY, events[..n], c);
      EnabledPrefix(events, n, c);
      HistoryConsistent(events[..n], here, c);
      OccurKeepsConsistent(here, events[n], c);
    }
  }

  /** And hooks and subscriptions are what the events say. */
  lemma {:induction false} HistoryTold(events: seq<Event>, end: World, c: Settings)
    requires EnabledAll(events, c) && end == History(EMPTY, events, c)
    ensures RunsTold(end.runs, events) && SubscriptionsTold(end.tables.subscriptions, end.gone, events)
  {
    if events != [] {
      var n := |events| - 1;
      var here := History(EMPTY, events[..n], c);
      EnabledPrefix(events, n, c);
      HistoryTold(events[..n], here, c);
      assert events == events[..n] + [events[n]];
      RunsToldStep(here, events[..n], events[n], events, end.runs, c);
      SubscriptionsToldStep(here, events[..n], events[n], events, end, c);
    }
  }
}
