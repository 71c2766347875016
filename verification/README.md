# Circuit waiters and the singleton cache of ooni-probe, in Dafny

This project models two small stateful pieces of the ooni-probe network
measurement probe.

**`CustomCircuit`** (ooni/utils/onion.py) asks Tor for three-hop circuits
and waits for them. Tor reports circuit progress to the probe as CIRC events
(section 4.1.1 of the Tor control protocol specification). txtorcon turns
these events into calls of `circuit_extend`, `circuit_built` and
`circuit_failed`. The object keeps `waiting_circuits`, an ordered list of
`(circuit_id, deferred)` pairs:

- `request_circuit_build` picks a path or checks the one it is given, then
  calls `build_circuit`. With no path given, it pops three relays off the
  shared pool `state.relays`.
- The `AppendWaiting` callback adds the waiter once `build_circuit` reports
  the new circuit's id.
- `circuit_built` removes the waiters it finds for the circuit and fires
  their Deferreds.
- `circuit_failed` removes one waiter and asks for a new build with the same
  Deferred.

The model is the class `Onion.CustomCircuit`, with the parts of txtorcon's
`TorState` it touches in `Onion.TorState`. A Deferred is an opaque `Token`.
Firing one appends to the ghost log `fired`. Every `build_circuit` call is
recorded in the ghost log `requests`.

The list bookkeeping is stated on values in module `Waiters`.
`circuit_built` walks the list with a Python `for` loop and calls
`list.remove` inside it. The iterator walks an index over the live list, so
the entry right after a removed one is never looked at:

- `BuiltLoop` is that loop as written.
- `BuiltEffect` describes its outcome independently: an entry is removed
  exactly when it waits on the circuit and the entry before it was not
  removed.
- `BuiltLoopIsEffect` proves that the two agree.

The rest of `Waiters` proves what the loop does guarantee. The invariant
`FiresOnce` of `CustomCircuit` adds that no Deferred is ever fired twice.

The delete-list part of `write_torrc` is the method `Onion.WriteTorrc`. The
names that `mkdtemp` and `mkstemp` would return are passed in as parameters.

**`Singleton`** (wtf/meta.py) keeps the single instance of each subclass in
the `__it__` entry of that subclass's own `__dict__`. It runs the subclass's
`init` hook only when it creates the instance. `Meta.Singletons` models these
entries as a map from class to instance, with a ghost log of `init` calls.
`Meta.ConstructTwiceThenSubclass` is a client that uses only the contracts:
it shows that a second construction returns the same instance without
calling `init`, and that a subclass gets its own instance. The default
`init` (wtf/meta.py:308-309) does nothing, and a subclass's override is
foreign code. So the model records each call and lets the caller decide
whether it raises.

Three behaviours of the code that the model keeps:

- `circuit_built` does not resolve every waiter for the circuit: it skips
  the waiter right after each one it removes. `Waiters.BuiltEffect` states
  this rule for the whole list and `Waiters.BuiltLoopIsEffect` proves the
  loop follows it; `Waiters.BuiltSkipsNeighbour` shows the step at one pair
  of neighbours. All waiters are resolved exactly when no two waiters for
  the circuit are neighbours in the list (`Waiters.BuiltEffectLeavesIff`).
- `circuit_failed` has no purpose check, unlike `circuit_extend` and
  `circuit_built`.
- The pool guard is `relays_remaining() > 0`, so a pool of one or two
  relays is emptied and `pop` raises `IndexError`.

## Model

| member | source | states |
|---|---|---|
| `Waiters.IndexOf` | ooni/utils/onion.py:217 | where `list.remove` looks: an index holding the tuple, with no earlier index holding it |
| `Waiters.Remove` | ooni/utils/onion.py:230 | `list.remove` drops the first occurrence of the tuple and nothing else: the list shrinks by one, the multiset loses that one element, and every other entry keeps its order |
| `Waiters.RemoveAt` | ooni/utils/onion.py:217 | when no Deferred is in the list twice, removing the tuple found at index i removes index i |
| `Waiters.BuiltLoopIsEffect` | ooni/utils/onion.py:215-218 | the remove-while-iterating loop, resumed at any index, has the effect of the left-to-right rule "removed iff it matches and its predecessor was not removed" |
| `Waiters.BuiltLoopFromStart` | ooni/utils/onion.py:215-218 | from index 0, the loop and the left-to-right rule give the same survivors and the same fired Deferreds |
| `Waiters.BuiltEffectSplits` | ooni/utils/onion.py:215-218 | the removed entries are exactly the entries `(circuit.id, d)` for the fired Deferreds, one for one: the list before equals the survivors plus these |
| `Waiters.BuiltEffectKeeps` | ooni/utils/onion.py:215-218 | every entry for another circuit survives, the survivors keep their original order, and fired plus surviving matches equals the matches there were |
| `Waiters.BuiltEffectLeavesIff` | ooni/utils/onion.py:215-218 | a waiter for the circuit survives if and only if two waiters for it are neighbours in the list |
| `Waiters.BuiltSingleMatch` | ooni/utils/onion.py:215-218 | with exactly one waiter for the circuit: one Deferred, from the list, is fired, `waiting_on` becomes false and the list is one shorter |
| `Waiters.BuiltSkipsNeighbour` | ooni/utils/onion.py:215-218 | when the loop reaches a waiter for the circuit and the next entry also waits on it, it fires the first, keeps the next one without looking at it, and treats the rest of the list as a fresh loop would; so a waiter for the circuit is left behind |
| `Waiters.LastMatch` | ooni/utils/onion.py:223-226 | none exactly when nobody waits on the circuit; otherwise an index that waits on it with no later index waiting on it |
| `Onion.ChoosePath` | ooni/utils/onion.py:245-256 | a non-list path or one under three hops fails its assertion and leaves the pool alone; any success has at least three hops; a pool of three or more gives up exactly its last three relays, in pop order; a pool of one or two is emptied and `IndexError` raised; an empty pool draws a guard and two routers, or raises if either set is empty |
| `Onion.TorState.Pop` | ooni/utils/onion.py:247 | `pop()` takes the last relay off the pool, or raises `IndexError` on an empty pool |
| `Onion.CustomCircuit.constructor` | ooni/utils/onion.py:191-194 | starts with no waiters, nothing fired and no build requested |
| `Onion.CustomCircuit.WaitingOn` | ooni/utils/onion.py:196-200 | true exactly when some entry has the circuit's id; changes nothing |
| `Onion.CustomCircuit.CircuitExtend` | ooni/utils/onion.py:202-207 | logs the hop exactly for a general-purpose circuit that is waited on; changes no state |
| `Onion.CustomCircuit.CircuitBuilt` | ooni/utils/onion.py:209-218 | no change for a non-general circuit; otherwise the list and the fired log become what the loop leaves and fires, and no Deferred is fired twice |
| `Onion.CustomCircuit.LastWaiterFor` | ooni/utils/onion.py:223-228 | finds a waiter exactly when one exists, and then it is the last one for the circuit, so, with no waiter holding a None Deferred, the `Expected to find circuit.` exception cannot be raised |
| `Onion.CustomCircuit.CircuitFailed` | ooni/utils/onion.py:220-232 | no-op without a waiter, whatever the purpose; otherwise removes exactly the last waiter for the circuit, fires nothing, and requests a new build with no path for that same Deferred |
| `Onion.CustomCircuit.RequestCircuitBuild` | ooni/utils/onion.py:244-259 | the path and the pool afterwards are those of `ChoosePath`; `build_circuit` is called with the Deferred exactly when a path was found; no waiter is registered |
| `Onion.CustomCircuit.AppendWaiting` | ooni/utils/onion.py:261-276 | appends exactly one `(circ.id, deferred)` waiter, at the end, when the build's result arrives |
| `Onion.FireFiresOnce` | ooni/utils/onion.py:216-218 | removing a waiter and then firing its Deferred keeps every Deferred fired at most once |
| `Onion.DeleteFiresOnce` | ooni/utils/onion.py:230 | removing a waiter without firing it keeps that invariant |
| `Onion.JoinPath` | ooni/utils/onion.py:75 | `os.path.join` of the data directory and the temporary file name: the result starts with the directory and ends with the name |
| `Onion.WriteTorrc` | ooni/utils/onion.py:68-79 | the delete list is `[tempdir, torrc]` without a data directory and `[torrc]` with one, so a caller's data directory is never deleted; the torrc is a `tmp` file joined onto the directory used; the config's `DataDirectory` is that directory |
| `Meta.Singletons.New` | wtf/meta.py:301-307 | the first construction of a class caches a fresh instance and calls `init` once with its arguments; later ones return the cached instance, ignore their arguments and call nothing; the cache is keyed by the class itself, and `init` has run exactly once per cached class |

## Left out

- `start_tor`, the file writes of `write_torrc` and `delete_files_or_dirs` (ooni/utils/onion.py:55-185): filesystem, process spawning, TCP endpoints and shutdown triggers. Only the delete-list shape of `write_torrc` is modelled. `mkdtemp` and `mkstemp` become parameters. The content of the torrc and the import fallback at lines 62-66 are not modelled.
- `__setup_done__`, `__setup_fail__`, `__state_complete__`, `__updates__` (ooni/utils/onion.py:24-53): logging and reactor callbacks that refer to names the file never defines.
- `check_circuit_route` (ooni/utils/onion.py:234-242): it changes no state and refers to the undefined names `circuit` and `TorInfo`.
- The randomness of `random.choice` (ooni/utils/onion.py:250-252): the three draws are a `Draws` parameter of indexes, reduced modulo the size of what is drawn from.
- `build_circuit`, the Deferred callback chains and logging: the call is recorded in `requests`, and firing a Deferred is an entry in `fired`. What a fired Deferred's own callbacks then do, including any re-entrant change to the list, is not modelled. The same goes for the `log.err` errback of a failed build, which registers no waiter.
- The log line of `request_circuit_build` joins the relays as strings. Relays are strings here, so the `TypeError` that non-string relays would raise is not modelled.
- `relays_remaining()` is not defined in these files. It is taken to be the size of `state.relays`.
- The `relays` argument of the `CustomCircuit` constructor is stored but never read, so the model omits it.
- Onion.CustomCircuit.AppendWaiting: requires that the Deferred is neither waiting nor already fired, which the source does not check. A Deferred registered twice would be fired twice by `circuit_built`, and Twisted refuses that with `AlreadyCalledError`. The model does not cover that misuse.
- `MetaDescriptor`, `applyClassAttribute` and `singleton_semaphore` (wtf/meta.py:19-289): reflection machinery and a concurrency semaphore. The rest of wtf/meta.py is not part of this model.
- Meta.Singletons.New: models only `__new__` and `init`. The `__init__` that Python runs after `__new__` on every construction is not part of this model. Arguments are opaque strings.
- ooni/ooniprobe.py, with the work generator, the bounded-concurrency worker and the report sink it wires together: their sources (`work`, `reports`) are not part of this model, so resume offsets and the concurrency cap are not modelled.
- Onion.CustomCircuit.LastWaiterFor: a Deferred is a `Token` and is never None in the model. The source tests `d is None` after its search (ooni/utils/onion.py:227-228), not whether a waiter was found. A waiter registered through `request_circuit_build(None)` would make a later `circuit_failed` raise `Expected to find circuit.`, and that path is not modelled.
- Onion.WriteTorrc: `mkstemp` returns the absolute, normalised form of the joined path. For a relative data directory, or one with `..` in it, the real torrc path differs from the `JoinPath` result. That normalisation is not modelled. The delete-list shape does not depend on it.
