/**
 * The list of circuit waiters that `CustomCircuit` keeps in
 * `waiting_circuits` (ooni/utils/onion.py), as values: each entry pairs a
 * circuit id with the Deferred that waits for that circuit.  A Deferred is
 * known only by its identity, so it is a `Token` here.
 *
 * The loop of `circuit_built` iterates over the list while removing from it.
 * Python's list iterator walks an index over the live list, so removing
 * entry i moves entry i + 1 under an index the iterator has already passed:
 * the entry right after a removed one is never looked at.  `BuiltLoop` is
 * that loop as written; `BuiltEffect` is an independent description of its
 * outcome, and `BuiltLoopIsEffect` proves the two agree.
 */
module Waiters {
  import opened Wrappers

  type CircuitId = int

  /** A Twisted Deferred, by identity. */
  type Token = nat

  /** One `(circuit_id, deferred)` tuple of `waiting_circuits`. */
  datatype Waiter = Waiter(circ: CircuitId, d: Token)

  /** What the loop of `circuit_built` leaves behind and whom it fires, in order. */
  datatype Swept = Swept(rest: seq<Waiter>, resolved: seq<Token>)

  /** Some entry waits on circuit `id`. */
  ghost predicate Waits(ws: seq<Waiter>, id: CircuitId) {
    exists k :: 0 <= k < |ws| && ws[k].circ == id
  }

  /** No Deferred is in the list twice. */
  ghost predicate DistinctTokens(ws: seq<Waiter>) {
    forall j, k :: 0 <= j < k < |ws| ==> ws[j].d != ws[k].d
  }

  /** Two neighbouring entries both wait on circuit `id`. */
  ghost predicate AdjacentMatches(ws: seq<Waiter>, id: CircuitId) {
    exists k :: 0 <= k < |ws| - 1 && ws[k].circ == id && ws[k + 1].circ == id
  }

  /** The entries waiting on `id`, in list order. */
  function Matching(ws: seq<Waiter>, id: CircuitId): seq<Waiter> {
    if ws == [] then []
    else (if ws[0].circ == id then [ws[0]] else []) + Matching(ws[1..], id)
  }

  /** The entries waiting on any other circuit, in list order. */
  function Others(ws: seq<Waiter>, id: CircuitId): seq<Waiter> {
    if ws == [] then []
    else (if ws[0].circ != id then [ws[0]] else []) + Others(ws[1..], id)
  }

  /** The waiters `(id, t)` for the tokens `ts`. */
  function Entries(ts: seq<Token>, id: CircuitId): seq<Waiter> {
    if ts == [] then [] else [Waiter(id, ts[0])] + Entries(ts[1..], id)
  }

  /** `a` is `b` with some entries dropped: what is left keeps its order. */
  ghost predicate Subsequence(a: seq<Waiter>, b: seq<Waiter>)
    decreases |b|
  {
    if a == [] then true
    else if b == [] then false
    else (a[0] == b[0] && Subsequence(a[1..], b[1..])) || Subsequence(a, b[1..])
  }

  /** The list without its entry at index `i`: the others keep their order. */
  function Delete(ws: seq<Waiter>, i: nat): (r: seq<Waiter>)
    requires i < |ws|
    ensures |r| == |ws| - 1
    ensures forall j :: 0 <= j < |r| ==> r[j] == (if j < i then ws[j] else ws[j + 1])
  {
    ws[..i] + ws[i + 1..]
  }

  /** Deleting index `i` loses exactly one copy of the entry there. */
  lemma DeleteMultiset(ws: seq<Waiter>, i: nat)
    requires i < |ws|
    ensures multiset(Delete(ws, i)) + multiset{ws[i]} == multiset(ws)
  {
    assert ws == ws[..i] + [ws[i]] + ws[i + 1..];
  }

  /** Where `list.remove(w)` looks: the first index holding `w`. */
  function IndexOf(ws: seq<Waiter>, w: Waiter): (i: nat)
    requires w in ws
    ensures i < |ws| && ws[i] == w
    ensures forall j :: 0 <= j < i ==> ws[j] != w
  {
    if ws[0] == w then 0 else 1 + IndexOf(ws[1..], w)
  }

  /**
   * Python's `list.remove(w)` on a list that holds `w`: drops its first
   * occurrence, and the other entries keep their order.
   */
  function Remove(ws: seq<Waiter>, w: Waiter): (r: seq<Waiter>)
    requires w in ws
    ensures |r| == |ws| - 1
    ensures multiset(r) + multiset{w} == multiset(ws)
    ensures forall j :: 0 <= j < |r| ==> r[j] == (if j < IndexOf(ws, w) then ws[j] else ws[j + 1])
  {
    DeleteMultiset(ws, IndexOf(ws, w));
    Delete(ws, IndexOf(ws, w))
  }

  /** With no Deferred twice in the list, removing the tuple at `i` removes index `i`. */
  lemma RemoveAt(ws: seq<Waiter>, i: nat)
    requires DistinctTokens(ws) && i < |ws|
    ensures Remove(ws, ws[i]) == Delete(ws, i)
  {
    var j := IndexOf(ws, ws[i]);
    assert ws[j].d == ws[i].d;
  }

  /** Deleting an entry keeps the Deferreds distinct and drops the deleted one's. */
  lemma DeleteDistinct(ws: seq<Waiter>, i: nat)
    requires DistinctTokens(ws) && i < |ws|
    ensures DistinctTokens(Delete(ws, i))
    ensures forall j :: 0 <= j < |ws| - 1 ==> Delete(ws, i)[j].d != ws[i].d
    ensures forall w :: w in Delete(ws, i) ==> w in ws
  {
    var r := Delete(ws, i);
    DeleteMultiset(ws, i);
    forall w | w in r ensures w in ws {
      assert multiset(r)[w] > 0;
    }
  }

  /**
   * The loop of `circuit_built` over `ws`, resumed at iterator index `i`:
   * a matching entry is removed from the live list and its Deferred fired,
   * and the index moves on in both cases.
   */
  function BuiltLoop(ws: seq<Waiter>, i: nat, id: CircuitId): Swept
    decreases |ws| - i
  {
    if i >= |ws| then Swept(ws, [])
    else if ws[i].circ == id then
      var s := BuiltLoop(Delete(ws, i), i + 1, id);
      Swept(s.rest, [ws[i].d] + s.resolved)
    else BuiltLoop(ws, i + 1, id)
  }

  /**
   * The outcome of that loop, read off the original list from left to right:
   * an entry is removed exactly when it waits on `id` and the entry before it
   * was not removed (`afterRemoval` says whether that one was).
   */
  function BuiltEffect(ws: seq<Waiter>, id: CircuitId, afterRemoval: bool): Swept
    decreases |ws|
  {
    if ws == [] then Swept([], [])
    else if ws[0].circ == id && !afterRemoval then
      var s := BuiltEffect(ws[1..], id, true);
      Swept(s.rest, [ws[0].d] + s.resolved)
    else
      var s := BuiltEffect(ws[1..], id, false);
      Swept([ws[0]] + s.rest, s.resolved)
  }

  /**
   * The loop as written has the effect `BuiltEffect` describes: resumed at
   * index `|done|`, with the entries of `done` already behind the iterator,
   * it keeps `done` and treats `todo` as `BuiltEffect` says.
   */
  lemma {:induction false} BuiltLoopIsEffect(done: seq<Waiter>, todo: seq<Waiter>, id: CircuitId)
    ensures BuiltLoop(done + todo, |done|, id)
         == Swept(done + BuiltEffect(todo, id, false).rest, BuiltEffect(todo, id, false).resolved)
    decreases |todo|, 1
  {
    if todo == [] {
      assert done + todo == done;
    } else if todo[0].circ != id {
      LoopPassesOver(done, todo, id);
    } else {
      LoopRemovesHead(done, todo, id);
    }
  }

  /** The step of `BuiltLoopIsEffect` past an entry for another circuit. */
  lemma {:induction false} LoopPassesOver(done: seq<Waiter>, todo: seq<Waiter>, id: CircuitId)
    requires todo != [] && todo[0].circ != id
    ensures BuiltLoop(done + todo, |done|, id)
         == Swept(done + BuiltEffect(todo, id, false).rest, BuiltEffect(todo, id, false).resolved)
    decreases |todo|, 0
  {
    var h, t := todo[0], todo[1..];
    var ws := done + todo;
    var e := BuiltEffect(t, id, false);
    assert BuiltEffect(todo, id, false) == Swept([h] + e.rest, e.resolved);
    assert BuiltLoop(ws, |done|, id) == BuiltLoop(ws, |done| + 1, id) by {
      assert ws[|done|] == h;
    }
    BuiltLoopIsEffect(done + [h], t, id);
    assert (done + [h]) + t == ws by {
      assert todo == [h] + t;
    }
    assert (done + [h]) + e.rest == done + ([h] + e.rest);
  }

  /** The step of `BuiltLoopIsEffect` that removes an entry and skips the next. */
  lemma {:induction false} LoopRemovesHead(done: seq<Waiter>, todo: seq<Waiter>, id: CircuitId)
    requires todo != [] && todo[0].circ == id
    ensures BuiltLoop(done + todo, |done|, id)
         == Swept(done + BuiltEffect(todo, id, false).rest, BuiltEffect(todo, id, false).resolved)
    decreases |todo|, 0
  {
    var h, t := todo[0], todo[1..];
    assert todo == [h] + t;
    RemovalUnfolds(done, h, t, id);
    if t == [] {
      assert done + t == done;
    } else {
      var h2, t2 := t[0], t[1..];
      assert t == [h2] + t2;
      SkippedUnfolds(done, h2, t2, id);
      BuiltLoopIsEffect(done + [h2], t2, id);
    }
  }

  /** One removal, on both sides: the loop and `BuiltEffect` each fire `h` first. */
  lemma RemovalUnfolds(done: seq<Waiter>, h: Waiter, t: seq<Waiter>, id: CircuitId)
    requires h.circ == id
    ensures var s := BuiltLoop(done + t, |done| + 1, id);
      BuiltLoop(done + ([h] + t), |done|, id) == Swept(s.rest, [h.d] + s.resolved)
    ensures var next := BuiltEffect(t, id, true);
      BuiltEffect([h] + t, id, false) == Swept(next.rest, [h.d] + next.resolved)
  {
    var ws := done + ([h] + t);
    assert ([h] + t)[1..] == t;
    assert ws[|done|] == h;
    assert Delete(ws, |done|) == done + t;
  }

  /** The entry after a removal: both sides keep `h2` without looking at it. */
  lemma SkippedUnfolds(done: seq<Waiter>, h2: Waiter, t2: seq<Waiter>, id: CircuitId)
    ensures done + ([h2] + t2) == (done + [h2]) + t2
    ensures |done + [h2]| == |done| + 1
    ensures var after := BuiltEffect(t2, id, false);
      BuiltEffect([h2] + t2, id, true) == Swept([h2] + after.rest, after.resolved)
    ensures forall r :: (done + [h2]) + r == done + ([h2] + r)
  {
    assert ([h2] + t2)[1..] == t2;
  }

  /** From the start of the list, the loop and its description agree outright. */
  lemma BuiltLoopFromStart(ws: seq<Waiter>, id: CircuitId)
    ensures BuiltLoop(ws, 0, id) == BuiltEffect(ws, id, false)
  {
    BuiltLoopIsEffect([], ws, id);
    assert [] + ws == ws;
  }

  /**
   * `circuit_built` removes only entries waiting on this circuit, and fires
   * each removed entry's Deferred once: one fired token per removed entry.
   */
  lemma {:induction false} BuiltEffectSplits(ws: seq<Waiter>, id: CircuitId, afterRemoval: bool)
    ensures var e := BuiltEffect(ws, id, afterRemoval);
      multiset(ws) == multiset(e.rest) + multiset(Entries(e.resolved, id))
    decreases |ws|
  {
    if ws != [] {
      var h, t := ws[0], ws[1..];
      assert ws == [h] + t;
      if h.circ == id && !afterRemoval {
        BuiltEffectSplits(t, id, true);
        var s := BuiltEffect(t, id, true);
        assert Entries([h.d] + s.resolved, id) == [h] + Entries(s.resolved, id);
      } else {
        BuiltEffectSplits(t, id, false);
      }
    }
  }

  /**
   * `circuit_built` keeps every entry waiting on another circuit, and what
   * it keeps stays in its original order; the entries for this circuit it
   * fires and the ones it keeps add up to those there were.
   */
  lemma {:induction false} BuiltEffectKeeps(ws: seq<Waiter>, id: CircuitId, afterRemoval: bool)
    ensures var e := BuiltEffect(ws, id, afterRemoval);
      && Others(e.rest, id) == Others(ws, id)
      && |e.resolved| + |Matching(e.rest, id)| == |Matching(ws, id)|
      && Subsequence(e.rest, ws)
    decreases |ws|
  {
    if ws != [] {
      var h, t := ws[0], ws[1..];
      if h.circ == id && !afterRemoval {
        BuiltEffectKeeps(t, id, true);
      } else {
        BuiltEffectKeeps(t, id, false);
        var s := BuiltEffect(t, id, false);
        assert ([h] + s.rest)[0] == h;
        assert ([h] + s.rest)[1..] == s.rest;
      }
    }
  }

  lemma WaitsCons(h: Waiter, t: seq<Waiter>, id: CircuitId)
    ensures Waits([h] + t, id) <==> h.circ == id || Waits(t, id)
  {
    assert ([h] + t)[0] == h;
    if Waits(t, id) {
      var k :| 0 <= k < |t| && t[k].circ == id;
      assert ([h] + t)[k + 1] == t[k];
    }
    if Waits([h] + t, id) && h.circ != id {
      var k :| 0 <= k < |[h] + t| && ([h] + t)[k].circ == id;
      assert t[k - 1] == ([h] + t)[k];
    }
  }

  lemma AdjacentCons(ws: seq<Waiter>, id: CircuitId)
    requires ws != []
    ensures AdjacentMatches(ws, id)
        <==> (|ws| >= 2 && ws[0].circ == id && ws[1].circ == id) || AdjacentMatches(ws[1..], id)
  {
    var t := ws[1..];
    if AdjacentMatches(t, id) {
      var k :| 0 <= k < |t| - 1 && t[k].circ == id && t[k + 1].circ == id;
      assert ws[k + 1] == t[k] && ws[k + 2] == t[k + 1];
    }
    if AdjacentMatches(ws, id) && !(|ws| >= 2 && ws[0].circ == id && ws[1].circ == id) {
      var k :| 0 <= k < |ws| - 1 && ws[k].circ == id && ws[k + 1].circ == id;
      assert k > 0;
      assert t[k - 1] == ws[k] && t[k] == ws[k + 1];
    }
  }

  /**
   * An entry waiting on `id` survives `circuit_built` exactly when two
   * entries waiting on `id` stand next to each other (or, further into the
   * list, when the first entry matches right after a removal).
   */
  lemma {:induction false} BuiltEffectLeavesIff(ws: seq<Waiter>, id: CircuitId, afterRemoval: bool)
    ensures Waits(BuiltEffect(ws, id, afterRemoval).rest, id)
        <==> AdjacentMatches(ws, id) || (afterRemoval && ws != [] && ws[0].circ == id)
    decreases |ws|
  {
    if ws == [] {
    } else {
      var h, t := ws[0], ws[1..];
      AdjacentCons(ws, id);
      if h.circ == id && !afterRemoval {
        BuiltEffectLeavesIff(t, id, true);
      } else {
        BuiltEffectLeavesIff(t, id, false);
        WaitsCons(h, BuiltEffect(t, id, false).rest, id);
      }
    }
  }

  lemma {:induction false} WaitsIffMatching(ws: seq<Waiter>, id: CircuitId)
    ensures Waits(ws, id) <==> Matching(ws, id) != []
    decreases |ws|
  {
    if ws != [] {
      assert ws == [ws[0]] + ws[1..];
      WaitsCons(ws[0], ws[1..], id);
      WaitsIffMatching(ws[1..], id);
    }
  }

  lemma {:induction false} MatchingOthersLength(ws: seq<Waiter>, id: CircuitId)
    ensures |Matching(ws, id)| + |Others(ws, id)| == |ws|
    decreases |ws|
  {
    if ws != [] {
      MatchingOthersLength(ws[1..], id);
    }
  }

  lemma {:induction false} AdjacentMeansTwo(ws: seq<Waiter>, id: CircuitId)
    requires AdjacentMatches(ws, id)
    ensures |Matching(ws, id)| >= 2
    decreases |ws|
  {
    AdjacentCons(ws, id);
    if |ws| >= 2 && ws[0].circ == id && ws[1].circ == id {
      assert ws[1..][0] == ws[1];
      WaitsCons(ws[1], ws[2..], id);
      assert ws[1..] == [ws[1]] + ws[2..];
    } else {
      AdjacentMeansTwo(ws[1..], id);
    }
  }

  /**
   * With exactly one entry waiting on the circuit, `circuit_built` fires
   * that one Deferred, leaves nobody waiting on the circuit, and shortens
   * the list by one.
   */
  lemma BuiltSingleMatch(ws: seq<Waiter>, id: CircuitId)
    requires |Matching(ws, id)| == 1
    ensures var e := BuiltEffect(ws, id, false);
      && !Waits(e.rest, id)
      && |e.rest| == |ws| - 1
      && |e.resolved| == 1
      && Waiter(id, e.resolved[0]) in ws
  {
    var e := BuiltEffect(ws, id, false);
    if AdjacentMatches(ws, id) {
      AdjacentMeansTwo(ws, id);
      assert false;
    }
    BuiltEffectLeavesIff(ws, id, false);
    assert !Waits(e.rest, id);
    WaitsIffMatching(e.rest, id);
    BuiltEffectKeeps(ws, id, false);
    assert |e.resolved| == 1;
    MatchingOthersLength(ws, id);
    MatchingOthersLength(e.rest, id);
    assert |e.rest| == |ws| - 1;
    BuiltEffectSplits(ws, id, false);
    var w := Waiter(id, e.resolved[0]);
    assert Entries(e.resolved, id) == [w];
    assert multiset(ws)[w] > 0;
  }

  /**
   * Whenever the loop of `circuit_built` reaches an entry for the circuit
   * whose neighbour also waits on it, it fires the first and never looks at
   * the neighbour, which stays in the list; from there on the loop treats
   * the remaining entries `post` as if it started afresh on them.  With
   * `done` and `post` empty this is the list of just two such waiters.
   */
  lemma BuiltSkipsNeighbour(done: seq<Waiter>, id: CircuitId, a: Token, b: Token, post: seq<Waiter>)
    ensures BuiltLoop(done + [Waiter(id, a), Waiter(id, b)] + post, |done|, id).rest
         == done + [Waiter(id, b)] + BuiltLoop(post, 0, id).rest
    ensures BuiltLoop(done + [Waiter(id, a), Waiter(id, b)] + post, |done|, id).resolved
         == [a] + BuiltLoop(post, 0, id).resolved
    ensures Waits(BuiltLoop(done + [Waiter(id, a), Waiter(id, b)] + post, |done|, id).rest, id)
  {
    var wa, wb := Waiter(id, a), Waiter(id, b);
    var t := [wb] + post;
    var todo := [wa] + t;
    assert done + [wa, wb] + post == done + todo;
    BuiltLoopIsEffect(done, todo, id);
    RemovalUnfolds(done, wa, t, id);
    SkippedUnfolds([], wb, post, id);
    BuiltLoopFromStart(post, id);
    var rest := done + [wb] + BuiltLoop(post, 0, id).rest;
    assert done + ([wb] + BuiltLoop(post, 0, id).rest) == rest;
    assert rest[|done|].circ == id;
  }

  /**
   * The entry `circuit_failed` takes out: the last one waiting on `id`,
   * since its loop keeps overwriting what it found.
   */
  function LastMatch(ws: seq<Waiter>, id: CircuitId): (r: Option<nat>)
    ensures r.None? <==> !Waits(ws, id)
    ensures r.Some? ==> r.value < |ws| && ws[r.value].circ == id
    ensures r.Some? ==> forall j :: r.value < j < |ws| ==> ws[j].circ != id
    decreases |ws|
  {
    if ws == [] then None
    else if ws[|ws| - 1].circ == id then Some(|ws| - 1)
    else
      var r := LastMatch(ws[..|ws| - 1], id);
      assert Waits(ws, id) ==> Waits(ws[..|ws| - 1], id) by {
        if Waits(ws, id) {
          var k :| 0 <= k < |ws| && ws[k].circ == id;
          assert ws[..|ws| - 1][k] == ws[k];
        }
      }
      r
  }
}
