/**
 * `CustomCircuit` from ooni/utils/onion.py: the bookkeeping that waits for
 * circuits requested from Tor and fires a Deferred for each one once the
 * control connection reports the circuit built.  Tor reports circuit
 * progress as CIRC events (section 4.1.1 of the Tor control protocol
 * specification); txtorcon turns them into the `circuit_extend`,
 * `circuit_built` and `circuit_failed` calls modelled here.  Also the
 * delete-list bookkeeping of `write_torrc` from the same file.
 */
module Onion {
  import opened Wrappers
  import opened Waiters

  /** A relay, by the name that is joined into the logged path. */
  type Relay = string

  type Path = string

  /** The purpose Tor gives to circuits that carry ordinary traffic. */
  const General: string := "GENERAL"

  /** The fields of a txtorcon circuit that the bookkeeping reads. */
  datatype Circuit = Circuit(id: CircuitId, purpose: string)

  /** The `path` argument of `request_circuit_build`. */
  datatype PathArg =
    | Omitted                   // `path=None`
    | AList(hops: seq<Relay>)   // a Python list of relays
    | NotAList                  // any other value

  /** The indexes that the three `random.choice` calls draw. */
  datatype Draws = Draws(guard: nat, middle: nat, last: nat)

  /** The exceptions `request_circuit_build` can raise. */
  datatype Raised = IndexError | AssertionError(msg: string)

  const NotAListMsg: string := "Circuit path must be a list of relays!"
  const TooShortMsg: string := "Circuits must be at least three hops!"

  /** What choosing a path yields, and the relay pool it leaves. */
  datatype Choice = Choice(path: Result<seq<Relay>, Raised>, pool: seq<Relay>)

  /** A call of `build_circuit`: its path and the Deferred its callback will register. */
  datatype Request = Request(d: Token, path: seq<Relay>)

  /** A Deferred fired with the circuit it waited for. */
  datatype Fired = Fired(d: Token, circuit: Circuit)

  /**
   * The path `request_circuit_build` builds, or the exception it raises
   * first, and what is left of the shared relay pool.  With no path given
   * and a non-empty pool, three relays are popped from its end; with an
   * empty pool, one random entry guard and two random routers are drawn.
   */
  function ChoosePath(arg: PathArg, pool: seq<Relay>, guards: seq<Relay>, routers: seq<Relay>, draws: Draws): (ch: Choice)
    ensures ch.path.Success? ==> |ch.path.value| >= 3
    ensures !arg.Omitted? ==> ch.pool == pool
    ensures arg.NotAList? ==> ch.path == Failure(AssertionError(NotAListMsg))
    ensures arg.AList? ==> (ch.path.Success? <==> |arg.hops| >= 3)
    ensures arg.AList? && |arg.hops| >= 3 ==> ch.path.value == arg.hops
    ensures arg.AList? && |arg.hops| < 3 ==> ch.path == Failure(AssertionError(TooShortMsg))
    ensures arg.Omitted? && |pool| >= 3 ==>
      && ch.path.Success?
      && pool == ch.pool + [ch.path.value[2], ch.path.value[1], ch.path.value[0]]
    ensures arg.Omitted? && 0 < |pool| < 3 ==> ch.path == Failure(IndexError) && ch.pool == []
    ensures arg.Omitted? && pool == [] ==>
      && ch.pool == []
      && (ch.path.Success? <==> guards != [] && routers != [])
      && (ch.path.Success? ==>
            ch.path.value[0] in guards && ch.path.value[1] in routers && ch.path.value[2] in routers)
  {
    match arg
    case NotAList => Choice(Failure(AssertionError(NotAListMsg)), pool)
    case AList(hops) =>
      if |hops| < 3 then Choice(Failure(AssertionError(TooShortMsg)), pool)
      else Choice(Success(hops), pool)
    case Omitted =>
      if |pool| > 0 then
        if |pool| < 3 then Choice(Failure(IndexError), [])
        else
          var n := |pool|;
          Choice(Success([pool[n - 1], pool[n - 2], pool[n - 3]]), pool[..n - 3])
      else if guards == [] || routers == [] then Choice(Failure(IndexError), pool)
      else
        Choice(Success([guards[draws.guard % |guards|],
                        routers[draws.middle % |routers|],
                        routers[draws.last % |routers|]]), pool)
  }

  /** The parts of txtorcon's `TorState` that `CustomCircuit` uses. */
  class TorState {
    /** The shared pool of pre-vetted relays, `state.relays`. */
    var relays: seq<Relay>
    var entryGuards: seq<Relay>
    var routers: seq<Relay>

    constructor (relays: seq<Relay>, entryGuards: seq<Relay>, routers: seq<Relay>)
      ensures this.relays == relays && this.entryGuards == entryGuards && this.routers == routers
    {
      this.relays := relays;
      this.entryGuards := entryGuards;
      this.routers := routers;
    }

    function RelaysRemaining(): nat
      reads this
    {
      |relays|
    }

    /** `relays.pop()`: takes the last relay, or raises `IndexError` on an empty pool. */
    method Pop() returns (r: Result<Relay, Raised>)
      modifies this`relays
      ensures old(relays) == [] ==> r == Failure(IndexError) && relays == []
      ensures old(relays) != [] ==> r.Success? && old(relays) == relays + [r.value]
    {
      if relays == [] {
        r := Failure(IndexError);
      } else {
        r := Success(relays[|relays| - 1]);
        relays := relays[..|relays| - 1];
      }
    }
  }

  class CustomCircuit {
    const state: TorState
    /** `waiting_circuits`. */
    var waiting: seq<Waiter>
    /** Every Deferred fired so far, with the circuit it was fired with. */
    ghost var fired: seq<Fired>
    /** Every `build_circuit` call made so far. */
    ghost var requests: seq<Request>

    /**
     * A Deferred fires at most once: no Deferred waits twice, none is fired
     * twice, and none that was fired is still waiting.
     */
    ghost predicate Valid()
      reads this
    {
      FiresOnce(waiting, fired)
    }

    constructor (state: TorState)
      ensures this.state == state && Valid()
      ensures waiting == [] && fired == [] && requests == []
    {
      this.state := state;
      waiting := [];
      fired := [];
      requests := [];
    }

    /** `waiting_on`: whether some waiter is for this circuit's id. */
    method WaitingOn(c: Circuit) returns (r: bool)
      ensures r <==> Waits(waiting, c.id)
    {
      for k := 0 to |waiting|
        invariant forall j :: 0 <= j < k ==> waiting[j].circ != c.id
      {
        if waiting[k].circ == c.id {
          return true;
        }
      }
      return false;
    }

    /** `circuit_extend`: observes only; reports whether it logs the new hop. */
    method CircuitExtend(c: Circuit, router: Relay) returns (logged: bool)
      ensures logged <==> c.purpose == General && Waits(waiting, c.id)
    {
      if c.purpose != General {
        return false;
      }
      logged := WaitingOn(c);
    }

    /**
     * `circuit_built`: each waiter the loop reaches for this circuit is
     * removed and then its Deferred fired with the circuit.
     */
    method CircuitBuilt(c: Circuit)
      requires Valid()
      modifies this`waiting, this`fired
      ensures Valid()
      ensures c.purpose != General ==> waiting == old(waiting) && fired == old(fired)
      ensures c.purpose == General ==>
        var e := BuiltEffect(old(waiting), c.id, false);
        waiting == e.rest && fired == old(fired) + FiredWith(e.resolved, c)
    {
      if c.purpose != General {
        return;
      }
      ghost var ws0, fired0 := waiting, fired;
      ghost var goal := BuiltLoop(ws0, 0, c.id);
      var i := 0;
      while i < |waiting|
        invariant FiresOnce(waiting, fired)
        invariant BuiltLoop(waiting, i, c.id).rest == goal.rest
        invariant fired + FiredWith(BuiltLoop(waiting, i, c.id).resolved, c) == fired0 + FiredWith(goal.resolved, c)
        decreases |waiting| - i
      {
        var w := waiting[i];
        if w.circ == c.id {
          FireStep(waiting, fired, i, c);
          RemoveAt(waiting, i);
          FireFiresOnce(waiting, fired, i, c);
          waiting := Remove(waiting, w);
          fired := fired + [Fired(w.d, c)];
        }
        i := i + 1;
      }
      BuiltLoopFromStart(ws0, c.id);
    }

    /**
     * `circuit_failed`: for a circuit somebody waits on, the last waiter
     * for it is removed, its Deferred is not fired, and a new build is
     * requested for that same Deferred with no path.  There is no purpose
     * check.  `retry` is the outcome of that request.
     */
    method CircuitFailed(c: Circuit, reason: string, draws: Draws) returns (retry: Option<Result<seq<Relay>, Raised>>)
      requires Valid()
      modifies this`waiting, this`requests, state`relays
      ensures Valid()
      ensures fired == old(fired)
      ensures !Waits(old(waiting), c.id) ==>
        && retry.None?
        && waiting == old(waiting) && requests == old(requests) && state.relays == old(state.relays)
      ensures Waits(old(waiting), c.id) ==>
        var k := LastMatch(old(waiting), c.id).value;
        var ch := ChoosePath(Omitted, old(state.relays), state.entryGuards, state.routers, draws);
        && waiting == Delete(old(waiting), k)
        && retry == Some(ch.path)
        && state.relays == ch.pool
        && requests == old(requests) + (if ch.path.Success? then [Request(old(waiting)[k].d, ch.path.value)] else [])
    {
      var isWaiting := WaitingOn(c);
      if !isWaiting {
        return None;
      }
      var found := LastWaiterFor(c);
      // A Deferred is never None here, so "Expected to find circuit." cannot be raised.
      assert found.Some?;
      var k := LastMatch(waiting, c.id).value;
      RemoveAt(waiting, k);
      DeleteFiresOnce(waiting, fired, k);
      waiting := Remove(waiting, found.value);
      var r := RequestCircuitBuild(found.value.d, Omitted, draws);
      retry := Some(r);
    }

    /**
     * The search loop of `circuit_failed`: it keeps overwriting what it
     * found, so it ends with the last waiter for this circuit, if any.
     */
    method LastWaiterFor(c: Circuit) returns (found: Option<Waiter>)
      ensures found.None? <==> !Waits(waiting, c.id)
      ensures found.Some? ==> found.value == waiting[LastMatch(waiting, c.id).value]
    {
      found := None;
      for k := 0 to |waiting|
        invariant found.None? <==> LastMatch(waiting[..k], c.id).None?
        invariant found.Some? ==> found.value == waiting[LastMatch(waiting[..k], c.id).value]
      {
        assert waiting[..k + 1][..k] == waiting[..k];
        if waiting[k].circ == c.id {
          found := Some(waiting[k]);
        }
      }
      assert waiting[..|waiting|] == waiting;
    }

    /**
     * `request_circuit_build` up to the call of `build_circuit`: chooses or
     * checks the path, pops the pool, and on success requests the build.
     * No waiter is registered here; see `AppendWaiting`.
     */
    method RequestCircuitBuild(d: Token, path: PathArg, draws: Draws) returns (r: Result<seq<Relay>, Raised>)
      modifies this`requests, state`relays
      ensures var ch := ChoosePath(path, old(state.relays), state.entryGuards, state.routers, draws);
        r == ch.path && state.relays == ch.pool
      ensures requests == old(requests) + (if r.Success? then [Request(d, r.value)] else [])
    {
      match path {
        case NotAList =>
          r := Failure(AssertionError(NotAListMsg));
        case AList(hops) =>
          if |hops| < 3 {
            r := Failure(AssertionError(TooShortMsg));
          } else {
            r := Success(hops);
          }
        case Omitted =>
          if state.RelaysRemaining() > 0 {
            ghost var pool := state.relays;
            var popped: seq<Relay> := [];
            var raised := false;
            while |popped| < 3 && !raised
              invariant requests == old(requests)
              invariant |popped| <= 3
              invariant raised ==> state.relays == [] && |popped| < 3
              invariant |popped| <= |pool|
              invariant state.relays == pool[..|pool| - |popped|]
              invariant forall j :: 0 <= j < |popped| ==> popped[j] == pool[|pool| - 1 - j]
              decreases 3 - |popped|, if raised then 0 else 1
            {
              var p := state.Pop();
              if p.Failure? {
                raised := true;
              } else {
                popped := popped + [p.value];
              }
            }
            if raised {
              r := Failure(IndexError);
            } else {
              assert popped == [pool[|pool| - 1], pool[|pool| - 2], pool[|pool| - 3]];
              r := Success(popped);
            }
          } else if state.entryGuards == [] || state.routers == [] {
            r := Failure(IndexError);
          } else {
            var first := state.entryGuards[draws.guard % |state.entryGuards|];
            var middle := state.routers[draws.middle % |state.routers|];
            var last := state.routers[draws.last % |state.routers|];
            r := Success([first, middle, last]);
          }
      }
      if r.Success? {
        requests := requests + [Request(d, r.value)];
      }
    }

    /**
     * `AppendWaiting`, the callback that `build_circuit`'s result runs:
     * registers the Deferred as waiting on the circuit that was started.
     */
    method AppendWaiting(d: Token, circ: Circuit)
      requires Valid()
      requires exists k :: 0 <= k < |requests| && requests[k].d == d
      requires forall w :: w in waiting ==> w.d != d
      requires forall f :: f in fired ==> f.d != d
      modifies this`waiting
      ensures Valid()
      ensures waiting == old(waiting) + [Waiter(circ.id, d)]
    {
      waiting := waiting + [Waiter(circ.id, d)];
    }
  }

  /**
   * A Deferred fires at most once: no Deferred waits twice, none is fired
   * twice, and none that was fired is still waiting.
   */
  ghost predicate FiresOnce(waiting: seq<Waiter>, fired: seq<Fired>) {
    && DistinctTokens(waiting)
    && (forall j, k :: 0 <= j < k < |fired| ==> fired[j].d != fired[k].d)
    && (forall w, f :: w in waiting && f in fired ==> w.d != f.d)
  }

  /** Taking a waiter out of the list keeps every Deferred firing at most once. */
  lemma DeleteFiresOnce(waiting: seq<Waiter>, fired: seq<Fired>, i: nat)
    requires FiresOnce(waiting, fired) && i < |waiting|
    ensures FiresOnce(Delete(waiting, i), fired)
  {
    DeleteDistinct(waiting, i);
  }

  /** Taking a waiter out of the list and then firing it keeps that too. */
  lemma FireFiresOnce(waiting: seq<Waiter>, fired: seq<Fired>, i: nat, c: Circuit)
    requires FiresOnce(waiting, fired) && i < |waiting|
    ensures FiresOnce(Delete(waiting, i), fired + [Fired(waiting[i].d, c)])
  {
    var rest, now := Delete(waiting, i), fired + [Fired(waiting[i].d, c)];
    DeleteDistinct(waiting, i);
    forall w, f | w in rest && f in now ensures w.d != f.d {
      if f == now[|fired|] {
        var j :| 0 <= j < |rest| && rest[j] == w;
        assert rest[j].d != waiting[i].d;
      } else {
        assert f in fired;
      }
    }
  }

  /** One removal of the loop of `circuit_built`, seen from the fired log. */
  lemma FireStep(ws: seq<Waiter>, fired: seq<Fired>, i: nat, c: Circuit)
    requires i < |ws| && ws[i].circ == c.id
    ensures BuiltLoop(ws, i, c.id).rest == BuiltLoop(Delete(ws, i), i + 1, c.id).rest
    ensures fired + FiredWith(BuiltLoop(ws, i, c.id).resolved, c)
         == (fired + [Fired(ws[i].d, c)]) + FiredWith(BuiltLoop(Delete(ws, i), i + 1, c.id).resolved, c)
  {
    var s := BuiltLoop(Delete(ws, i), i + 1, c.id);
    assert BuiltLoop(ws, i, c.id) == Swept(s.rest, [ws[i].d] + s.resolved);
    assert ([ws[i].d] + s.resolved)[1..] == s.resolved;
  }

  /** Each token fired with circuit `c`, in order. */
  function FiredWith(ts: seq<Token>, c: Circuit): seq<Fired> {
    if ts == [] then [] else [Fired(ts[0], c)] + FiredWith(ts[1..], c)
  }

  /** The torrc options `write_torrc` sets. */
  class TorConfig {
    var dataDirectory: Option<Path>

    constructor ()
      ensures dataDirectory.None?
    {
      dataDirectory := None;
    }
  }

  /**
   * `os.path.join(dir, name)` for a `name` with no slash in it: a slash goes
   * between the two unless `dir` is empty or already ends in one.
   */
  function JoinPath(dir: Path, name: string): (r: Path)
    ensures |r| >= |dir| + |name| && r[..|dir|] == dir
    ensures r[|r| - |name|..] == name
  {
    if dir == [] || dir[|dir| - 1] == '/' then dir + name else dir + "/" + name
  }

  /** The prefix `mkstemp` puts before the random part of a file name. */
  const TempPrefix: string := "tmp"

  /**
   * The bookkeeping of `write_torrc`: which data directory Tor gets, where
   * the torrc goes and what is scheduled for deletion.  `madeDir` is the
   * directory `mkdtemp` would create and `madeName` the random part of the
   * name `mkstemp` would give the torrc inside the data directory.
   */
  method WriteTorrc(conf: TorConfig, dataDir: Option<Path>, madeDir: Path, madeName: string)
    returns (torrc: Path, dir: Path, deleteList: seq<Path>)
    modifies conf
    ensures dir == (if dataDir.Some? then dataDir.value else madeDir)
    ensures conf.dataDirectory == Some(dir)
    ensures torrc == JoinPath(dir, TempPrefix + madeName)
    ensures deleteList == (if dataDir.None? then [madeDir, torrc] else [torrc])
    ensures dataDir.Some? ==> dataDir.value !in deleteList
  {
    deleteList := [];
    if dataDir.None? {
      dir := madeDir;
      deleteList := deleteList + [dir];
    } else {
      dir := dataDir.value;
    }
    conf.dataDirectory := Some(dir);
    torrc := JoinPath(dir, TempPrefix + madeName);
    assert |torrc| > |dir|;
    deleteList := deleteList + [torrc];
  }
}
