/** The qid.path table of tools/9pfsd.py, shared by one thread per connection
    through a double-checked lock: every interleaving of its steps. */
module NineQids {

  type Key = (int, int)

  type Thread = nat

  const ROOTPATH: nat := 2
  const FIRST: nat := 3

  /** Where a thread is in qid(). */
  datatype Pc =
    | Idle
    | Wanting(key: Key)              // the first look found nothing
    | Holding(key: Key)              // has the lock, not looked again
    | Missing(key: Key)              // looked again: still nothing
    | Taken(key: Key, path: nat)     // path = nextpath
    | Counted(key: Key, path: nat)   // nextpath += 1
    | Stored(key: Key, path: nat)    // qidpaths[key] = path, or found it there
    | Done(key: Key, path: nat)      // the lock released, the path returned

  datatype Table = Table(paths: map<Key, nat>, next: nat, holder: set<Thread>)

  datatype State = State(table: Table, at: map<Thread, Pc>)

  /** The next thing that one thread does. */
  datatype Action =
    | Look(t: Thread, key: Key)
    | Acquire(t: Thread)
    | LookAgain(t: Thread)
    | Take(t: Thread)
    | Count(t: Thread)
    | Store(t: Thread)
    | Release(t: Thread)

  function At(s: State, t: Thread): Pc { if t in s.at then s.at[t] else Idle }

  function To(s: State, t: Thread, table: Table, pc: Pc): State { State(table, s.at[t := pc]) }

  predicate Locked(s: State) { s.table.holder != {} }

  /** An action whose thread is not there to take it does nothing. */
  function Step(s: State, a: Action): State {
    var pc, b := At(s, a.t), s.table;
    match a
    case Look(t, key) =>
      if !pc.Idle? && !pc.Done? then s
      else if key in b.paths then To(s, t, b, Done(key, b.paths[key]))
      else To(s, t, b, Wanting(key))
    case Acquire(t) =>
      if !pc.Wanting? || Locked(s) then s else To(s, t, b.(holder := {t}), Holding(pc.key))
    case LookAgain(t) =>
      if !pc.Holding? then s
      else if pc.key in b.paths then To(s, t, b, Stored(pc.key, b.paths[pc.key]))
      else To(s, t, b, Missing(pc.key))
    case Take(t) =>
      if !pc.Missing? then s else To(s, t, b, Taken(pc.key, b.next))
    case Count(t) =>
      if !pc.Taken? then s else To(s, t, b.(next := b.next + 1), Counted(pc.key, pc.path))
    case Store(t) =>
      if !pc.Counted? then s else To(s, t, b.(paths := b.paths[pc.key := pc.path]), Stored(pc.key, pc.path))
    case Release(t) =>
      if !pc.Stored? then s else To(s, t, b.(holder := {}), Done(pc.key, pc.path))
  }

  function Run(s: State, acts: seq<Action>): State
    decreases |acts|
  {
    if acts == [] then s else Run(Step(s, acts[0]), acts[1..])
  }

  function Initial(root: Key): State { State(Table(map[root := ROOTPATH], FIRST, {}), map[]) }

  // ---- what every step keeps ----

  predicate Inside(pc: Pc) { pc.Holding? || pc.Missing? || pc.Taken? || pc.Counted? || pc.Stored? }

  /** Only the holder is inside the lock. */
  predicate Mutex(s: State) {
    (forall t :: t in s.at ==> (Inside(s.at[t]) <==> t in s.table.holder))
    && (forall t :: t in s.table.holder ==> t in s.at)
    && forall t, u :: t in s.table.holder && u in s.table.holder ==> t == u
  }

  /** The number just taken and not stored yet, if there is one. */
  predicate Pending(s: State, t: Thread) { t in s.table.holder && At(s, t).Counted? }

  predicate Distinct(b: Table) {
    forall k, l :: k in b.paths && l in b.paths && b.paths[k] == b.paths[l] ==> k == l
  }

  predicate Ranged(b: Table, root: Key) {
    FIRST <= b.next && root in b.paths && b.paths[root] == ROOTPATH
    && forall k :: k in b.paths && k != root ==> FIRST <= b.paths[k] < b.next
  }

  /** Each thread's own knowledge of the table is right. */
  predicate Knows(b: Table, pc: Pc) {
    match pc
    case Idle => true
    case Wanting(_) => true
    case Holding(_) => true
    case Missing(key) => key !in b.paths
    case Taken(key, path) => key !in b.paths && path == b.next
    case Counted(key, path) => key !in b.paths && path + 1 == b.next && path >= FIRST && Unused(b, path)
    case Stored(key, path) => key in b.paths && b.paths[key] == path
    case Done(key, path) => key in b.paths && b.paths[key] == path
  }

  predicate Unused(b: Table, path: nat) { forall k :: k in b.paths ==> b.paths[k] != path }

  predicate Known(s: State) { forall t :: t in s.at ==> Knows(s.table, s.at[t]) }

  ghost predicate Given(b: Table, n: nat) { exists k :: k in b.paths && b.paths[k] == n }

  /** Every number below next is given out, but for one that is pending. */
  ghost predicate Dense(s: State) {
    forall n: nat :: FIRST <= n < s.table.next ==> Given(s.table, n) || exists t :: Pending(s, t) && At(s, t).path == n
  }

  ghost predicate Inv(s: State, root: Key) {
    Mutex(s) && Distinct(s.table) && Ranged(s.table, root) && Known(s) && Dense(s)
  }

  /** Nothing that is in the table changes. */
  predicate Grows(b: Table, c: Table) { forall k :: k in b.paths ==> k in c.paths && c.paths[k] == b.paths[k] }

  lemma InitialHolds(root: Key)
    ensures Inv(Initial(root), root)
  {
  }

  lemma MutexKept(s: State, a: Action, root: Key)
    requires Inv(s, root)
    ensures Mutex(Step(s, a))
  {
    hide Dense, Distinct, Ranged, Known;
  }

  lemma TableKept(s: State, a: Action, root: Key)
    requires Inv(s, root)
    ensures Grows(s.table, Step(s, a).table)
    ensures Distinct(Step(s, a).table) && Ranged(Step(s, a).table, root)
  {
    hide Dense, Mutex;
    if a.t in s.at { assert Knows(s.table, s.at[a.t]); }
  }

  /** A thread outside the lock knows only what no step takes away. */
  lemma OthersKnow(s: State, a: Action, root: Key, t: Thread)
    requires Inv(s, root) && t in s.at && t != a.t
    ensures Knows(Step(s, a).table, s.at[t])
  {
    hide Dense, Distinct, Ranged;
    assert Knows(s.table, s.at[t]);
    if a.t in s.at { assert Knows(s.table, s.at[a.t]); }
  }

  lemma OwnKnows(s: State, a: Action, root: Key)
    requires Inv(s, root)
    ensures Knows(Step(s, a).table, At(Step(s, a), a.t))
  {
    hide Dense, Distinct;
    if a.t in s.at { assert Knows(s.table, s.at[a.t]); }
  }

  lemma KnownKept(s: State, a: Action, root: Key)
    requires Inv(s, root)
    ensures Known(Step(s, a))
  {
    hide Inv, Knows;
    var u := Step(s, a);
    forall t | t in u.at
      ensures Knows(u.table, u.at[t])
    {
      if t == a.t { OwnKnows(s, a, root); } else { OthersKnow(s, a, root, t); }
    }
  }

  lemma StillGiven(b: Table, c: Table, n: nat)
    requires Grows(b, c) && Given(b, n)
    ensures Given(c, n)
  {
    var k :| k in b.paths && b.paths[k] == n;
    assert k in c.paths && c.paths[k] == n;
  }

  lemma DenseKept(s: State, a: Action, root: Key)
    requires Inv(s, root)
    ensures Dense(Step(s, a))
  {
    TableKept(s, a, root);
    var u := Step(s, a);
    forall n: nat | FIRST <= n < u.table.next
      ensures Given(u.table, n) || exists t :: Pending(u, t) && At(u, t).path == n
    {
      NumberKept(s, a, root, n);
    }
  }

  lemma NumberKept(s: State, a: Action, root: Key, n: nat)
    requires Inv(s, root) && FIRST <= n < Step(s, a).table.next && Grows(s.table, Step(s, a).table)
    ensures var u := Step(s, a); Given(u.table, n) || exists t :: Pending(u, t) && At(u, t).path == n
  {
    hide Distinct;
    var u := Step(s, a);
    if a.t in s.at { assert Knows(s.table, s.at[a.t]); }
    if n == s.table.next {
      assert Pending(u, a.t) && At(u, a.t).path == n;
    } else if Given(s.table, n) {
      StillGiven(s.table, u.table, n);
    } else {
      var t :| Pending(s, t) && At(s, t).path == n;
      if a.Store? && a.t == t {
        assert At(s, t).key in u.table.paths && u.table.paths[At(s, t).key] == n;
      } else {
        assert Pending(u, t) && At(u, t).path == n;
      }
    }
  }

  lemma StepKeeps(s: State, a: Action, root: Key)
    requires Inv(s, root)
    ensures Inv(Step(s, a), root) && Grows(s.table, Step(s, a).table)
  {
    hide Mutex, Distinct, Ranged, Known, Dense, Step;
    MutexKept(s, a, root);
    TableKept(s, a, root);
    KnownKept(s, a, root);
    DenseKept(s, a, root);
  }

  lemma {:induction false} RunKeeps(s: State, acts: seq<Action>, root: Key)
    requires Inv(s, root)
    ensures Inv(Run(s, acts), root) && Grows(s.table, Run(s, acts).table)
    decreases |acts|
  {
    hide Inv, Step;
    if acts != [] {
      StepKeeps(s, acts[0], root);
      RunKeeps(Step(s, acts[0]), acts[1..], root);
    }
  }

  // ---- what that promises ----

  /** Under every interleaving two threads get the same number exactly when they
      asked about the same file, whenever each of them asked. */
  lemma SamePathSameFile(root: Key, acts: seq<Action>, more: seq<Action>, t: Thread, u: Thread)
    requires var s := Run(Initial(root), acts); At(s, t).Done?
    requires var v := Run(Run(Initial(root), acts), more); At(v, u).Done?
    ensures var x, y := At(Run(Initial(root), acts), t), At(Run(Run(Initial(root), acts), more), u);
            x.path == y.path <==> x.key == y.key
  {
    hide Run, Step, Mutex, Dense;
    InitialHolds(root);
    RunKeeps(Initial(root), acts, root);
    var s := Run(Initial(root), acts);
    RunKeeps(s, more, root);
    var v := Run(s, more);
    assert Knows(s.table, s.at[t]) && Knows(v.table, v.at[u]);
  }

  /** The root has 2, and nothing else does. */
  lemma RootIsTwo(root: Key, acts: seq<Action>, t: Thread)
    requires At(Run(Initial(root), acts), t).Done?
    ensures var x := At(Run(Initial(root), acts), t); x.path == ROOTPATH <==> x.key == root
  {
    hide Run, Step, Mutex, Dense;
    InitialHolds(root);
    RunKeeps(Initial(root), acts, root);
    var s := Run(Initial(root), acts);
    assert Knows(s.table, s.at[t]);
  }

  /** With nobody inside the lock, the numbers given out are exactly those from
      3 up to the next. */
  lemma ExactlyUpToNext(root: Key, acts: seq<Action>, n: nat)
    requires !Locked(Run(Initial(root), acts))
    ensures var b := Run(Initial(root), acts).table;
            (exists k :: k in b.paths && k != root && b.paths[k] == n) <==> FIRST <= n < b.next
  {
    hide Run, Step, Known, Distinct;
    InitialHolds(root);
    RunKeeps(Initial(root), acts, root);
    var s := Run(Initial(root), acts);
    if FIRST <= n < s.table.next {
      assert forall t :: !Pending(s, t);
      assert Given(s.table, n);
      var k :| k in s.table.paths && s.table.paths[k] == n;
      assert k != root;
    }
  }
}
