/** Runs as the sequence of worlds they pass through. */
module Traces {
  import opened Runs
  import opened RunTheorems

  /** Call c leads from world u to world v. */
  ghost predicate Leads(u: World, c: Call, v: World) {
    WorldOk(u) && Matched(u, c) && (NextKeeps(u, c); v == Next(u, c))
  }

  ghost predicate StepAt(ws: seq<World>, cs: seq<Call>, i: nat)
    requires i < |cs| && |ws| == |cs| + 1
  {
    Leads(ws[i], cs[i], ws[i + 1])
  }

  ghost predicate Worlds(w: World, cs: seq<Call>, v: World, ws: seq<World>) {
    && |ws| == |cs| + 1 && ws[0] == w && ws[|cs|] == v
    && forall i :: 0 <= i < |cs| ==> StepAt(ws, cs, i)
  }

  lemma OneMoreWorld(w: World, cs: seq<Call>, u: World, ws: seq<World>, c: Call, v: World)
    requires Worlds(w, cs, u, ws) && Leads(u, c, v)
    ensures Worlds(w, cs + [c], v, ws + [v])
  {
    forall i | 0 <= i < |cs + [c]| ensures StepAt(ws + [v], cs + [c], i) {
      if i < |cs| { assert StepAt(ws, cs, i); }
    }
  }

  lemma {:induction false} WorldsAreRun(w: World, cs: seq<Call>, v: World, ws: seq<World>)
    requires WorldOk(w) && Worlds(w, cs, v, ws)
    ensures MatchedRun(w, cs) && RunFrom(w, cs) == v
    decreases |cs|
  {
    if cs != [] {
      assert StepAt(ws, cs, 0);
      NextKeeps(w, cs[0]);
      forall i | 0 <= i < |cs[1..]| ensures StepAt(ws[1..], cs[1..], i) { assert StepAt(ws, cs, i + 1); }
      WorldsAreRun(ws[1], cs[1..], v, ws[1..]);
    }
  }

  lemma {:induction false} RunHasWorlds(w: World, cs: seq<Call>) returns (ws: seq<World>)
    requires WorldOk(w) && MatchedRun(w, cs)
    ensures Worlds(w, cs, RunFrom(w, cs), ws)
    decreases |cs|
  {
    if cs == [] {
      ws := [w];
    } else {
      NextKeeps(w, cs[0]);
      var u := Next(w, cs[0]);
      var us := RunHasWorlds(u, cs[1..]);
      ws := [w] + us;
      FirstWorld(w, cs, u, RunFrom(w, cs), us);
    }
  }

  lemma FirstWorld(w: World, cs: seq<Call>, u: World, v: World, us: seq<World>)
    requires cs != [] && Leads(w, cs[0], u) && Worlds(u, cs[1..], v, us)
    ensures Worlds(w, cs, v, [w] + us)
  {
    var ws := [w] + us;
    forall i | 0 <= i < |cs| ensures StepAt(ws, cs, i) {
      if i > 0 { assert StepAt(us, cs[1..], i - 1); }
    }
  }

  /** Every world on the way keeps what the first one had. */
  lemma {:induction false} WorldsKeep(w: World, cs: seq<Call>, v: World, ws: seq<World>, n: nat)
    requires WorldOk(w) && Worlds(w, cs, v, ws) && n <= |cs|
    ensures GoodNext(w, ws[n])
  {
    if n > 0 {
      WorldsKeep(w, cs, v, ws, n - 1);
      assert GoodNext(ws[n - 1], ws[n]) by {
        assert StepAt(ws, cs, n - 1);
        NextKeeps(ws[n - 1], cs[n - 1]);
      }
      Compose(w, ws[n - 1], ws[n]);
    }
  }
}
