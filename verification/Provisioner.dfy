/** Provisioning of the local identity provider: creations whose outcome is unknown are never repeated,
    whatever the replies and wherever the process dies. */
module Provisioner {
  import opened Options

  datatype Key = ProjectKey | AppKey

  /** The saved state: a dictionary with these four keys. */
  datatype State = State(instance: Option<string>, project: Option<string>, app: Option<string>,
                         pending: Option<Key>)

  const EMPTY := State(None, None, None, None)

  /** The reply to one request: lost or an error, HTTP 404, or a document. A search answers whether it
      found the name; a check answers whether the resource is as expected. */
  datatype Reply = Failed | Missing | Answer(id: string, found: bool, asExpected: bool)

  /** What one process meets: its replies, whether recovery is allowed, and after how many effects
      (requests and saves) it dies. */
  datatype World = World(reply: nat -> Reply, mayRecover: bool, dies: nat)

  datatype Entry = Sent(key: Key) | Recovered

  predicate Identifier(s: string) {
    1 <= |s| <= 200 && forall i | 0 <= i < |s| ::
      'A' <= s[i] <= 'Z' || 'a' <= s[i] <= 'z' || '0' <= s[i] <= '9' || s[i] in "@._-"
  }

  /** The identifier that a reply brings, if any. */
  function Named(reply: Reply): Option<string> {
    if reply.Answer? && Identifier(reply.id) then Some(reply.id) else None
  }

  predicate Finds(reply: Reply) { reply.Answer? && reply.found }

  function Recorded(s: State, key: Key): Option<string> {
    match key case ProjectKey => s.project case AppKey => s.app
  }

  function Record(s: State, key: Key, id: string): State {
    match key
    case ProjectKey => s.(project := Some(id), pending := None)
    case AppKey => s.(app := Some(id), pending := None)
  }

  // ----- the requests sent -----

  /** The keys for which a create request was sent since the last recovery. */
  function Since(log: seq<Entry>): set<Key> {
    if log == [] then {}
    else
      var last := log[|log| - 1];
      if last.Recovered? then {} else Since(log[..|log| - 1]) + {last.key}
  }

  predicate Once(log: seq<Entry>) {
    log == [] ||
    (Once(log[..|log| - 1]) &&
     (log[|log| - 1].Sent? ==> log[|log| - 1].key !in Since(log[..|log| - 1])))
  }

  lemma {:induction false} SentIsSince(log: seq<Entry>, i: nat)
    requires i < |log| && log[i].Sent? && forall m :: i < m < |log| ==> !log[m].Recovered?
    ensures log[i].key in Since(log)
  {
    var n := |log| - 1;
    if i < n {
      assert log[..n][i] == log[i];
      SentIsSince(log[..n], i);
    }
  }

  /** Between two create requests for the same key there is a recovery. */
  lemma {:induction false} OnceMeans(log: seq<Entry>, i: nat, j: nat)
    requires Once(log) && i < j < |log| && log[i].Sent? && log[j] == log[i]
    ensures exists m :: i < m < j && log[m].Recovered?
  {
    var n := |log| - 1;
    var init := log[..n];
    if j < n {
      OnceMeans(init, i, j);
      var m :| i < m < j && init[m].Recovered?;
      assert log[m].Recovered?;
    } else if forall m :: i < m < j ==> !log[m].Recovered? {
      assert forall m :: i < m < |init| ==> init[m] == log[m];
      SentIsSince(init, i);
      assert false;
    }
  }

  // ----- what holds of a state -----

  /** An application is only ever created or recorded in a recorded project; what is recorded is not
      pending; every identifier is well formed. */
  predicate Sound(s: State) {
    && (s.pending == Some(ProjectKey) ==> s.project.None?)
    && (s.pending == Some(AppKey) ==> s.project.Some? && s.app.None?)
    && (s.app.Some? ==> s.project.Some?)
    && (s.instance.Some? ==> Identifier(s.instance.value))
    && (s.project.Some? ==> Identifier(s.project.value))
    && (s.app.Some? ==> Identifier(s.app.value))
  }

  /** Every create request sent since the last recovery has its outcome recorded, or is pending. */
  predicate Accounted(log: seq<Entry>, s: State) {
    forall key | key in Since(log) :: s.pending == Some(key) || Recorded(s, key).Some?
  }

  /** What is recorded stays. */
  predicate Keeps(s: State, t: State) {
    && (s.instance.Some? ==> t.instance == s.instance)
    && (s.project.Some? ==> t.project == s.project)
    && (s.app.Some? ==> t.app == s.app)
  }

  function Recoveries(log: seq<Entry>): nat {
    if log == [] then 0
    else Recoveries(log[..|log| - 1]) + if log[|log| - 1].Recovered? then 1 else 0
  }

  /** The log only grows, and without a recovery nothing recorded changes. */
  predicate Later(log: seq<Entry>, disk: State, log': seq<Entry>, disk': State) {
    log <= log' && Recoveries(log) <= Recoveries(log') &&
    (Recoveries(log) == Recoveries(log') ==> Keeps(disk, disk'))
  }

  /** From effect number `from` on every reply is a good one, a search finds what may already have been
      created, and the process lives for at least so many effects. */
  ghost predicate Helpful(w: World, from: nat, effects: nat, pending: Option<Key>) {
    from + effects <= w.dies &&
    forall n: nat | from <= n :: GoodReply(w.reply(n)) && (pending.Some? ==> w.reply(n).found)
  }

  predicate KnownGood(known: Option<string>) {
    known.Some? && known.value != "" ==> Identifier(known.value)
  }

  predicate GoodReply(reply: Reply) { reply.Answer? && Identifier(reply.id) && reply.asExpected }

  /** The recorded instance is another one than the one that answers now. */
  predicate Renewed(s: State, instance: string) {
    s.instance.Some? && s.instance.value != instance
  }

  predicate Renews(s: State, reply: Reply) { reply.Answer? && Renewed(s, reply.id) }

  /** Nothing is in the way: helpful replies, and no reason to recover. */
  ghost predicate Undisturbed(w: World, from: nat, effects: nat, s: State, known: Option<string>,
                              recoverIdentity: bool) {
    && Helpful(w, from, effects, s.pending)
    && !recoverIdentity && KnownGood(known) && !Renews(s, w.reply(from))
  }

  /** The identifier comes from the search if that finds the name, and otherwise from the reply to the
      one create request. */
  ghost predicate Obtained(w: World, key: Key, from: nat, id: Option<string>, log: seq<Entry>,
                           log': seq<Entry>) {
    if Finds(w.reply(from)) then id == Named(w.reply(from)) && log' == log
    else id == Named(w.reply(from + 2)) && log' == log + [Sent(key)]
  }

  class Provisioner {
    var state: State           // in memory
    var disk: State            // the file
    var clock: nat             // effects so far in this process
    ghost var log: seq<Entry>  // requests that reached the provider

    /** What survives every crash. */
    ghost predicate Durable()
      reads this
    {
      Sound(disk) && Accounted(log, disk) && Once(log)
    }

    /** A running process. */
    ghost predicate Valid()
      reads this
    {
      Durable() && Sound(state) && Accounted(log, state) && Keeps(disk, state)
    }

    constructor ()
      ensures Valid() && disk == EMPTY && log == []
    {
      state, disk, clock, log := EMPTY, EMPTY, 0, [];
    }

    /** A new process reads the file. */
    method Start()
      requires Durable()
      modifies this`state, this`clock
      ensures Valid() && state == disk && clock == 0
    {
      state, clock := disk, 0;
    }

    method Save(w: World) returns (alive: bool)
      requires Valid()
      modifies this`disk, this`clock
      ensures Valid() && disk == (if alive then state else old(disk))
      ensures alive <==> old(clock) < w.dies
      ensures clock == old(clock) + if alive then 1 else 0
    {
      if clock >= w.dies { return false; }
      disk, clock := state, clock + 1;
      return true;
    }

    method Request(w: World) returns (reply: Reply)
      modifies this`clock
      ensures reply == if old(clock) < w.dies then w.reply(old(clock)) else Failed
      ensures clock == old(clock) + if old(clock) < w.dies then 1 else 0
    {
      if clock >= w.dies { return Failed; }
      reply := w.reply(clock);
      clock := clock + 1;
    }

    /** The create request itself: sent, or not if the process is dead. */
    method Create(w: World, key: Key) returns (reply: Reply)
      requires Valid() && state.pending == Some(key) && disk == state && key !in Since(log)
      modifies this`clock, this`log
      ensures Valid() && log == if old(clock) < w.dies then old(log) + [Sent(key)] else old(log)
      ensures Recoveries(log) == Recoveries(old(log))
      ensures reply == if old(clock) < w.dies then w.reply(old(clock)) else Failed
      ensures clock == old(clock) + if old(clock) < w.dies then 1 else 0
    {
      if clock >= w.dies { return Failed; }
      reply := w.reply(clock);
      clock := clock + 1;
      log := log + [Sent(key)];
      assert log[..|log| - 1] == old(log);
    }

    /** The branch of `ensure` that creates: pending is saved before the request is sent. */
    method CreateResource(w: World, key: Key) returns (id: Option<string>)
      requires Valid() && Recorded(state, key).None? && (key.AppKey? ==> state.project.Some?)
      modifies this`state, this`disk, this`clock, this`log
      ensures Durable() && Later(old(log), old(disk), log, disk)
      ensures Recoveries(log) == Recoveries(old(log))
      ensures id.Some? ==> Valid() && Identifier(id.value)
      ensures id.Some? ==> state == old(state).(pending := Some(key)) && disk == state
      // The identifier is the reply to the one request sent; nothing is sent while another is pending.
      ensures id.Some? ==> log == old(log) + [Sent(key)] && id == Named(w.reply(old(clock) + 1))
      ensures old(state).pending.Some? ==> id.None? && log == old(log)
      ensures Helpful(w, old(clock), 2, old(state).pending) && old(state).pending.None? ==> id.Some?
      ensures old(clock) <= clock <= old(clock) + 2
    {
      if state.pending.Some? { return None; }
      state := state.(pending := Some(key));
      var alive := Save(w);
      if !alive { return None; }
      var created := Create(w, key);
      if !created.Answer? || !Identifier(created.id) { return None; }
      return Some(created.id);
    }

    /** The identifier is recorded and nothing is pending any more. */
    method Remember(w: World, key: Key, id: string) returns (saved: bool)
      requires Valid() && Identifier(id) && Recorded(state, key).None?
      requires key.AppKey? ==> state.project.Some?
      modifies this`state, this`disk, this`clock
      ensures Durable() && state == Record(old(state), key, id)
      ensures Keeps(old(disk), disk)
      ensures saved ==> Valid() && disk == state
      ensures saved <==> old(clock) < w.dies
      ensures old(clock) <= clock <= old(clock) + 1
    {
      state := Record(state, key, id);
      saved := Save(w);
    }

    /** What `ensure` does for a resource not recorded: what the search finds is taken over, and only
        otherwise a create request is sent. */
    method FindOrCreate(w: World, key: Key) returns (id: Option<string>)
      requires Valid() && Recorded(state, key).None? && (key.AppKey? ==> state.project.Some?)
      modifies this`state, this`disk, this`clock, this`log
      ensures Durable() && Later(old(log), old(disk), log, disk)
      ensures Recoveries(log) == Recoveries(old(log))
      ensures id.Some? ==> Valid() && Identifier(id.value)
      ensures id.Some? ==> state.(pending := None) == old(state).(pending := None)
      ensures id.Some? && !Finds(w.reply(old(clock))) ==> state.pending == Some(key) && disk == state
      ensures Finds(w.reply(old(clock))) ==> log == old(log)
      ensures id.Some? ==> Obtained(w, key, old(clock), id, old(log), log)
      ensures Helpful(w, old(clock), 3, old(state).pending) ==> id.Some?
      ensures old(clock) <= clock <= old(clock) + 3
    {
      var search := Request(w);
      if !search.Answer? { return None; }
      if search.found {
        if !Identifier(search.id) { return None; }
        return Some(search.id);
      }
      id := CreateResource(w, key);
    }

    /** `ensure`. It is called for the project first, and for the application only once the project is
        recorded. What is recorded is taken without any request. */
    method Ensure(w: World, key: Key) returns (id: Option<string>)
      requires Valid()
      requires key.AppKey? ==> state.project.Some?
      modifies this`state, this`disk, this`clock, this`log
      ensures Durable() && Later(old(log), old(disk), log, disk)
      ensures Recoveries(log) == Recoveries(old(log))
      ensures id.Some? ==> Valid() && Recorded(state, key) == id
      ensures Recorded(old(state), key).Some? ==> Untouched(old(state), old(disk), old(log), old(clock))
      ensures Recorded(old(state), key).Some? ==> id == Recorded(old(state), key)
      ensures id.Some? && Recorded(old(state), key).None? ==>
        state == disk == Record(old(state), key, id.value) && Obtained(w, key, old(clock), id, old(log), log)
      ensures Helpful(w, old(clock), 4, old(state).pending) ==> id.Some?
      ensures old(clock) <= clock <= old(clock) + 4
    {
      if Recorded(state, key).Some? { return Recorded(state, key); }
      id := FindOrCreate(w, key);
      if id.None? { return None; }
      var saved := Remember(w, key, id.value);
      if !saved { return None; }
    }

    ghost predicate Untouched(s: State, d: State, entries: seq<Entry>, time: nat)
      reads this
    {
      state == s && disk == d && log == entries && clock == time
    }

    /** `recover`: archives are written first, then the state starts again for the new instance. */
    method Recover(w: World, instance: string) returns (ok: bool)
      requires Valid() && Identifier(instance)
      modifies this`state, this`disk, this`clock, this`log
      ensures Durable() && Later(old(log), old(disk), log, disk)
      ensures ok ==> Valid() && state == disk == EMPTY.(instance := Some(instance))
      ensures ok ==> log == old(log) + [Recovered]
      ensures ok ==> Recoveries(log) == Recoveries(old(log)) + 1
      ensures !ok ==> log == old(log) && disk == old(disk)
      ensures ok <==> w.mayRecover && old(clock) < w.dies
      ensures old(clock) <= clock <= old(clock) + 1
    {
      if !w.mayRecover { return false; }
      if clock >= w.dies { return false; }
      state := EMPTY.(instance := Some(instance));
      disk, clock := state, clock + 1;
      log := log + [Recovered];
      assert log[..|log| - 1] == old(log);
      return true;
    }

    /** Recovery on request: only from a state of before instances were saved, and only if its project
        is gone. */
    method RecoverAsked(w: World, instance: string) returns (ok: bool)
      requires Valid() && Identifier(instance)
      modifies this`state, this`disk, this`clock, this`log
      ensures Durable() && Later(old(log), old(disk), log, disk)
      ensures ok ==> Valid() && state == disk == EMPTY.(instance := Some(instance))
      ensures ok ==> old(state).instance.None? && old(state).pending.None? && old(state).project.Some?
      ensures ok ==> w.reply(old(clock)).Missing? && log == old(log) + [Recovered]
      ensures ok ==> Recoveries(log) == Recoveries(old(log)) + 1
      ensures !ok ==> log == old(log) && disk == old(disk)
      ensures old(clock) <= clock
    {
      if state.instance.Some? || state.pending.Some? || state.project.None? { return false; }
      var check := Request(w);
      if !check.Missing? { return false; }
      ok := Recover(w, instance);
    }

    /** The instance that answers is noted, and saved. */
    method Adopt(w: World, me: string) returns (alive: bool)
      requires Valid() && Identifier(me) && state.instance.None?
      modifies this`state, this`disk, this`clock
      ensures Durable() && state == old(state).(instance := Some(me)) && Keeps(old(disk), disk)
      ensures alive ==> Valid() && disk == state
      ensures alive <==> old(clock) < w.dies
      ensures old(clock) <= clock <= old(clock) + 1
    {
      state := state.(instance := Some(me));
      alive := Save(w);
    }

    /** With nothing saved the project configured before is taken. */
    method TakeKnown(known: Option<string>) returns (ok: bool)
      requires Valid() && state == disk
      modifies this`state
      ensures Valid() && state.instance == old(state).instance && state.pending == old(state).pending
      ensures state == disk || (disk == EMPTY && known.Some? && state == disk.(project := known))
      ensures old(state) != EMPTY ==> ok && state == old(state)
      ensures old(state) == EMPTY && ok && known.Some? && known.value != "" ==> state.project == known
      ensures KnownGood(known) ==> ok
    {
      if state == EMPTY && known.Some? && known.value != "" {
        if !Identifier(known.value) { return false; }
        state := state.(project := known);
      }
      ok := true;
    }

    /** Recovery happens exactly when another instance is recorded, or on request. */
    method Settle(w: World, me: string, recoverIdentity: bool) returns (ok: bool)
      requires Valid() && Identifier(me)
      modifies this`state, this`disk, this`clock, this`log
      ensures Durable() && Later(old(log), old(disk), log, disk)
      ensures ok && (Renewed(old(state), me) || recoverIdentity) ==>
        Valid() && log == old(log) + [Recovered] && state == disk == EMPTY.(instance := Some(me))
      ensures !Renewed(old(state), me) && !recoverIdentity ==>
        ok && Untouched(old(state), old(disk), old(log), old(clock))
      ensures old(clock) <= clock
    {
      if state.instance.Some? && state.instance.value != me {
        ok := Recover(w, me);
      } else if recoverIdentity {
        ok := RecoverAsked(w, me);
      } else {
        ok := true;
      }
    }

    /** The first part of `provision`: which instance this is, and whether to start again. */
    method Identify(w: World, known: Option<string>, recoverIdentity: bool) returns (me: Option<string>)
      requires Valid() && state == disk
      modifies this`state, this`disk, this`clock, this`log
      ensures Durable() && Later(old(log), old(disk), log, disk)
      ensures me.Some? ==> Valid() && Identifier(me.value)
      ensures me.Some? ==> state == disk || (state.instance.None? && state.project.Some?)
      // Recovery happens exactly when another instance answers, or on request.
      ensures me.Some? ==> me == Named(w.reply(old(clock)))
      ensures me.Some? && (Renewed(old(state), me.value) || recoverIdentity) ==>
        log == old(log) + [Recovered] && state == disk == EMPTY.(instance := me)
      ensures !Renews(old(state), w.reply(old(clock))) && !recoverIdentity ==> log == old(log)
      ensures me.Some? && log == old(log) ==> state.pending == old(state).pending
      ensures Undisturbed(w, old(clock), 2, old(state), known, recoverIdentity) ==> me.Some? && log == old(log)
      ensures me.Some? && log == old(log) ==> clock <= old(clock) + 2
      ensures old(clock) <= clock
    {
      var reply := Request(w);
      if !reply.Answer? || !Identifier(reply.id) { return None; }
      var usable := TakeKnown(known);
      if !usable { return None; }
      var settled := Settle(w, reply.id, recoverIdentity);
      if !settled { return None; }
      if state == EMPTY {
        var alive := Adopt(w, reply.id);
        if !alive { return None; }
      }
      return Some(reply.id);
    }

    /** The second part: the project, found or created, and checked. */
    method EnsureProject(w: World, me: string) returns (ok: bool)
      requires Valid() && Identifier(me)
      requires state == disk || (state.instance.None? && state.project.Some?)
      modifies this`state, this`disk, this`clock, this`log
      ensures Durable() && Later(old(log), old(disk), log, disk)
      ensures ok ==> Valid() && state == disk && disk.instance.Some? && disk.project.Some?
      ensures Helpful(w, old(clock), 6, old(state).pending) ==> ok
      ensures old(clock) <= clock <= old(clock) + 6
      ensures ok ==> state.pending == old(state).pending || state.pending.None?
    {
      var project := Ensure(w, ProjectKey);
      if project.None? { return false; }
      var check := Request(w);
      if !check.Answer? || !check.asExpected { return false; }
      if state.instance.None? {
        var alive := Adopt(w, me);
        if !alive { return false; }
      }
      return true;
    }

    /** The third part: the application, found or created, and checked. */
    method EnsureApp(w: World) returns (ok: bool)
      requires Valid() && state == disk && disk.instance.Some? && disk.project.Some?
      modifies this`state, this`disk, this`clock, this`log
      ensures Durable() && Later(old(log), old(disk), log, disk)
      ensures ok ==> Valid() && disk == state && disk.pending.None? && disk.app.Some?
      ensures ok ==> disk.instance == old(disk).instance && disk.project == old(disk).project
      ensures Helpful(w, old(clock), 5, old(state).pending) ==> ok
    {
      var app := Ensure(w, AppKey);
      if app.None? { return false; }
      var check := Request(w);
      if !check.Answer? || !check.asExpected { return false; }
      NothingPending(state);
      return true;
    }

    /** `provision`, up to the checks of the application's configuration, which create nothing. A
        success leaves everything recorded and nothing pending in the file. */
    method Provision(w: World, known: Option<string>, recoverIdentity: bool) returns (ok: bool)
      requires Valid() && state == disk
      modifies this`state, this`disk, this`clock, this`log
      ensures Durable() && Later(old(log), old(disk), log, disk)
      ensures ok ==> Valid() && disk == state && disk.pending.None? &&
                     disk.instance.Some? && disk.project.Some? && disk.app.Some?
      // With good replies, and a search that finds what may have been created, it does succeed.
      ensures Undisturbed(w, old(clock), 13, old(state), known, recoverIdentity) ==> ok
    {
      var me := Identify(w, known, recoverIdentity);
      if me.None? { return false; }
      ok := EnsureProject(w, me.value);
      if !ok { return false; }
      ok := EnsureApp(w);
    }
  }

  /** With both resources recorded nothing can be pending. */
  lemma NothingPending(s: State)
    requires Sound(s) && s.project.Some? && s.app.Some?
    ensures s.pending.None?
  {
    if s.pending.Some? {
      match s.pending.value
      case ProjectKey =>
      case AppKey =>
    }
  }

  /** One run of the command after another, each meeting its own world and dying where it does. */
  datatype Session = Session(world: World, known: Option<string>, recoverIdentity: bool)

  method Sessions(sessions: seq<Session>) returns (p: Provisioner)
    ensures fresh(p) && p.Durable()
    ensures forall i, j :: 0 <= i < j < |p.log| && p.log[i].Sent? && p.log[j] == p.log[i] ==>
      exists m :: i < m < j && p.log[m].Recovered?
  {
    p := new Provisioner();
    for k := 0 to |sessions|
      invariant fresh(p) && p.Durable()
    {
      p.Start();
      var ok := p.Provision(sessions[k].world, sessions[k].known, sessions[k].recoverIdentity);
    }
    forall i, j | 0 <= i < j < |p.log| && p.log[i].Sent? && p.log[j] == p.log[i]
      ensures exists m :: i < m < j && p.log[m].Recovered?
    {
      OnceMeans(p.log, i, j);
    }
  }
}
