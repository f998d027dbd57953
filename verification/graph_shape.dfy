/** The workflow graph's shape: named nodes, the fixed edge table with its
    two conditional branches, the routing functions, and a walk that runs a
    step function node by node along the edges. */
module GraphShape {
  import opened Wrappers
  import opened TranslationState

  /** The graph's nodes, with the runtime's START and END markers. */
  datatype Node =
    | Start
    | Normalize
    | SafeguardClassify
    | SafeguardDecision
    | SafeguardFailResponse
    | Translate
    | QualityCheck
    | RetryGate
    | RetryTranslate
    | Response
    | End

  /** The two branch points. */
  datatype Router = AfterSafeguard | AfterRetryGate

  /** An outgoing edge: fixed, or chosen by a router whose answer is looked up
      in a path map. */
  datatype Edge = Direct(target: Node) | Branch(router: Router, paths: map<string, Node>)

  /** The path map registered with each router. */
  function Paths(router: Router): map<string, Node> {
    match router
    case AfterSafeguard =>
      map["translate" := Translate, "safeguard_fail_response" := SafeguardFailResponse]
    case AfterRetryGate =>
      map["retry_translate" := RetryTranslate, "response" := Response]
  }

  /** The edge table; END has no outgoing edge. */
  function EdgeOf(n: Node): Option<Edge> {
    match n
    case Start => Some(Direct(Normalize))
    case Normalize => Some(Direct(SafeguardClassify))
    case SafeguardClassify => Some(Direct(SafeguardDecision))
    case SafeguardDecision => Some(Branch(AfterSafeguard, Paths(AfterSafeguard)))
    case SafeguardFailResponse => Some(Direct(Response))
    case Translate => Some(Direct(QualityCheck))
    case QualityCheck => Some(Direct(RetryGate))
    case RetryGate => Some(Branch(AfterRetryGate, Paths(AfterRetryGate)))
    case RetryTranslate => Some(Direct(QualityCheck))
    case Response => Some(Direct(End))
    case End => None
  }

  /** A height that every edge lowers, except the loop's back edge. */
  function Rank(n: Node): nat {
    match n
    case Start => 10
    case Normalize => 9
    case SafeguardClassify => 8
    case SafeguardDecision => 7
    case Translate => 6
    case QualityCheck => 5
    case RetryGate => 4
    case RetryTranslate => 3
    case SafeguardFailResponse => 2
    case Response => 1
    case End => 0
  }

  /** The edge from `retry_translate` back to `quality_check`. */
  predicate IsBackEdge(n: Node, m: Node) {
    n == RetryTranslate && m == QualityCheck
  }

  /** The nodes one edge away. Only END is a dead end, only `response` leads to
      END, nothing leads back to START, and every edge but the back edge
      descends, so the retry loop is the graph's only cycle. */
  function Successors(n: Node): (r: set<Node>)
    ensures r == {} <==> n == End
    ensures End in r <==> n == Response
    ensures Start !in r
    ensures forall m :: m in r ==> Rank(m) < Rank(n) || IsBackEdge(n, m)
  {
    match EdgeOf(n)
    case None => {}
    case Some(Direct(m)) => {m}
    case Some(Branch(router, paths)) =>
      assert paths == Paths(router);
      Targets(router)
  }

  /** The nodes a router's path map can send to. */
  function Targets(router: Router): (r: set<Node>)
    ensures r == Paths(router).Values
  {
    match router
    case AfterSafeguard =>
      var m := Paths(AfterSafeguard);
      assert m["translate"] == Translate && m["safeguard_fail_response"] == SafeguardFailResponse;
      {Translate, SafeguardFailResponse}
    case AfterRetryGate =>
      var m := Paths(AfterRetryGate);
      assert m["retry_translate"] == RetryTranslate && m["response"] == Response;
      {RetryTranslate, Response}
  }

  /** `_route_after_safeguard`: "translate" exactly when the label is
      "PASS". */
  function RouteAfterSafeguard(s: State): (key: string)
    ensures key in Paths(AfterSafeguard)
    ensures key == "translate" <==> s.safeguardLabel == "PASS"
  {
    if s.safeguardLabel == "PASS" then "translate" else "safeguard_fail_response"
  }

  /** `_route_after_retry_gate`: a passed check always answers; otherwise
      retry while retries remain. */
  function RouteAfterRetryGate(s: State): (key: string)
    ensures key in Paths(AfterRetryGate)
    ensures s.qcPassed == "YES" ==> key == "response"
    ensures s.qcPassed != "YES" ==> (key == "retry_translate" <==> s.canRetry)
  {
    if s.qcPassed == "YES" then "response"
    else if s.canRetry then "retry_translate"
    else "response"
  }

  /** The router's answer, always a key of its path map. */
  function Choose(router: Router, s: State): (key: string)
    ensures key in Paths(router)
  {
    match router
    case AfterSafeguard => RouteAfterSafeguard(s)
    case AfterRetryGate => RouteAfterRetryGate(s)
  }

  /** The node reached from `n` once its step has produced `s`. */
  function Next(n: Node, s: State): Node
    requires n != End
  {
    match EdgeOf(n)
    case Some(Direct(m)) => m
    case Some(Branch(router, paths)) =>
      assert Paths(router) == paths;
      paths[Choose(router, s)]
  }

  /** The node chosen is always one edge away. */
  lemma NextFollowsEdge(n: Node, s: State)
    requires n != End
    ensures Next(n, s) in Successors(n)
  {
    match EdgeOf(n)
    case Some(Direct(m)) =>
    case Some(Branch(router, paths)) =>
      assert Paths(router)[Choose(router, s)] in Targets(router);
  }

  /** Consecutive nodes are joined by an edge. */
  predicate IsPath(p: seq<Node>) {
    forall i :: 0 <= i < |p| - 1 ==> p[i + 1] in Successors(p[i])
  }

  /** The nodes a walk ran, the state it ended with, and whether it reached
      END. */
  datatype Trace = Trace(visited: seq<Node>, last: State, finished: bool)

  /** Runs the graph from `n` for at most `fuel` steps, each node's step
      given by `step`. */
  function Walk(step: (Node, State) -> State, fuel: nat, n: Node, s: State): (t: Trace)
    ensures |t.visited| <= fuel
    ensures n != End ==> (t.finished <==> t.visited != [] && t.visited[|t.visited| - 1] == Response)
    decreases fuel
  {
    if n == End then Trace([], s, true)
    else if fuel == 0 then Trace([], s, false)
    else
      var s' := step(n, s);
      var m := Next(n, s');
      NextIsEndOnlyAfterResponse(n, s');
      var rest := Walk(step, fuel - 1, m, s');
      Trace([n] + rest.visited, rest.last, rest.finished)
  }

  /** Only `response` hands over to END. */
  lemma NextIsEndOnlyAfterResponse(n: Node, s: State)
    requires n != End
    ensures Next(n, s) == End <==> n == Response
  {
    NextFollowsEdge(n, s);
  }

  /** A walk follows the edges of the graph. */
  lemma {:induction false} WalkFollowsGraph(step: (Node, State) -> State, fuel: nat, n: Node, s: State)
    ensures IsPath(Walk(step, fuel, n, s).visited)
    decreases fuel
  {
    if n != End && fuel > 0 {
      var s' := step(n, s);
      var m := Next(n, s');
      var rest := Walk(step, fuel - 1, m, s').visited;
      WalkFollowsGraph(step, fuel - 1, m, s');
      WalkStartsAt(step, fuel - 1, m, s');
      NextFollowsEdge(n, s');
      PathCons(n, m, rest);
      WalkStep(step, fuel, n, s, m, s');
    }
  }

  /** A walk that runs anything runs its starting node first. */
  lemma WalkStartsAt(step: (Node, State) -> State, fuel: nat, n: Node, s: State)
    ensures Walk(step, fuel, n, s).visited == [] || Walk(step, fuel, n, s).visited[0] == n
  {
  }

  /** A walk never runs END as a step. */
  lemma {:induction false} WalkAvoidsEnd(step: (Node, State) -> State, fuel: nat, n: Node, s: State)
    ensures End !in Walk(step, fuel, n, s).visited
    decreases fuel
  {
    if n != End && fuel > 0 {
      var s' := step(n, s);
      var m := Next(n, s');
      WalkAvoidsEnd(step, fuel - 1, m, s');
      WalkStep(step, fuel, n, s, m, s');
    }
  }

  /** A path stays a path when a node with an edge to its head is put in
      front. */
  lemma PathCons(n: Node, m: Node, p: seq<Node>)
    requires IsPath(p) && m in Successors(n) && (p != [] ==> p[0] == m)
    ensures IsPath([n] + p)
  {
    var q := [n] + p;
    forall i | 0 <= i < |q| - 1 ensures q[i + 1] in Successors(q[i]) {
      assert q[i + 1] == p[i];
      if i > 0 {
        assert q[i] == p[i - 1];
      }
    }
  }

  // ---------------------------------------------------------------------------
  // Shape of the graph
  // ---------------------------------------------------------------------------

  /** The retry loop is a cycle of the graph. */
  lemma RetryLoopIsCycle()
    ensures IsPath([QualityCheck, RetryGate, RetryTranslate, QualityCheck])
  {
    assert RetryGate in Successors(QualityCheck);
    assert RetryTranslate in Paths(AfterRetryGate).Values by {
      assert Paths(AfterRetryGate)["retry_translate"] == RetryTranslate;
    }
    assert QualityCheck in Successors(RetryTranslate);
  }

  /** The back edge is taken at position `k` of `p`. */
  predicate BackEdgeAt(p: seq<Node>, k: int) {
    0 <= k < |p| - 1 && IsBackEdge(p[k], p[k + 1])
  }

  /** Along a path that avoids the back edge the rank drops at every step. */
  lemma {:induction false} RankDropsAlongForwardPath(p: seq<Node>)
    requires IsPath(p) && |p| > 0
    requires forall k :: !BackEdgeAt(p, k)
    ensures Rank(p[|p| - 1]) + |p| - 1 <= Rank(p[0])
    decreases |p|
  {
    if |p| > 1 {
      var q := p[1..];
      assert IsPath(q) by {
        forall i | 0 <= i < |q| - 1 ensures q[i + 1] in Successors(q[i]) {
          assert q[i] == p[i + 1] && q[i + 1] == p[i + 2];
        }
      }
      assert forall k :: !BackEdgeAt(q, k) by {
        forall k ensures !BackEdgeAt(q, k) {
          assert !BackEdgeAt(p, k + 1);
        }
      }
      RankDropsAlongForwardPath(q);
      assert !BackEdgeAt(p, 0);
      assert p[1] in Successors(p[0]);
    }
  }

  /** Every cycle of the graph goes through the retry loop's back edge. */
  lemma EveryCycleUsesRetryLoop(p: seq<Node>)
    requires IsPath(p) && |p| >= 2 && p[0] == p[|p| - 1]
    ensures exists k :: BackEdgeAt(p, k)
  {
    if forall k :: !BackEdgeAt(p, k) {
      RankDropsAlongForwardPath(p);
      assert false;
    }
  }

  // ---------------------------------------------------------------------------
  // The safety branch for step functions that never pass
  // ---------------------------------------------------------------------------

  /** The classification step never writes "PASS" and the decision step keeps
      the label it is given. */
  ghost predicate SafetyNeverPasses(step: (Node, State) -> State) {
    forall s :: && step(SafeguardClassify, s).safeguardLabel != "PASS"
                && step(SafeguardDecision, s).safeguardLabel == s.safeguardLabel
  }

  /** The nodes a refused request runs through. */
  const BlockedPath: seq<Node> :=
    [Start, Normalize, SafeguardClassify, SafeguardDecision, SafeguardFailResponse, Response]

  /** The blocked path, for any step function that never lets "PASS"
      through to the safety router. */
  lemma BlockedFromStart(step: (Node, State) -> State, fuel: nat, s: State)
    requires SafetyNeverPasses(step) && fuel >= |BlockedPath|
    ensures Walk(step, fuel, Start, s).finished
    ensures Walk(step, fuel, Start, s).visited == BlockedPath
    ensures Translate !in Walk(step, fuel, Start, s).visited
    ensures QualityCheck !in Walk(step, fuel, Start, s).visited
  {
    BlockedSuffix(step, fuel, 0, s);
    assert BlockedPath[0..] == BlockedPath;
  }

  /** From the `k`-th node of the blocked path on, a walk runs the rest of
      that path; entering the decision node, the state must already carry a
      label other than "PASS". */
  lemma {:induction false} BlockedSuffix(step: (Node, State) -> State, fuel: nat, k: nat, s: State)
    requires SafetyNeverPasses(step)
    requires k < |BlockedPath| && fuel >= |BlockedPath| - k
    requires k == 3 ==> s.safeguardLabel != "PASS"
    ensures Walk(step, fuel, BlockedPath[k], s).visited == BlockedPath[k..]
    decreases |BlockedPath| - k
  {
    var n := BlockedPath[k];
    var s' := step(n, s);
    var m := Next(n, s');
    if k == 2 {
      assert s'.safeguardLabel != "PASS";
    } else if k == 3 {
      assert s'.safeguardLabel == s.safeguardLabel;
    }
    BlockedNext(k, s');
    WalkStep(step, fuel, n, s, m, s');
    SliceCons(BlockedPath, k);
    if k + 1 < |BlockedPath| {
      BlockedSuffix(step, fuel - 1, k + 1, s');
    } else {
      WalkAtEnd(step, fuel - 1, s');
    }
  }

  /** The state the nodes of the blocked path from the `k`-th on produce,
      run one after the other from `s`. */
  function BlockedRest(step: (Node, State) -> State, k: nat, s: State): State
    requires k <= |BlockedPath|
    decreases |BlockedPath| - k
  {
    if k == |BlockedPath| then s else BlockedRest(step, k + 1, step(BlockedPath[k], s))
  }

  /** The whole blocked path, run from `s`: START gives `s1`, `normalize`
      `s2`, and so on up to `response`, whose output `s6` is the result. */
  lemma BlockedRestFromStart(step: (Node, State) -> State, s: State,
                             s1: State, s2: State, s3: State, s4: State, s5: State, s6: State)
    requires s1 == step(Start, s) && s2 == step(Normalize, s1) && s3 == step(SafeguardClassify, s2)
    requires s4 == step(SafeguardDecision, s3) && s5 == step(SafeguardFailResponse, s4)
    requires s6 == step(Response, s5)
    ensures BlockedRest(step, 0, s) == s6
  {
    assert BlockedRest(step, 5, s5) == s6;
    assert BlockedRest(step, 4, s4) == BlockedRest(step, 5, s5);
    assert BlockedRest(step, 3, s3) == BlockedRest(step, 4, s4);
    assert BlockedRest(step, 2, s2) == BlockedRest(step, 3, s3);
    assert BlockedRest(step, 1, s1) == BlockedRest(step, 2, s2);
  }

  /** From the `k`-th node of the blocked path on, a walk hands back the
      state the rest of that path produces. */
  lemma {:induction false} BlockedSuffixReturns(step: (Node, State) -> State, fuel: nat, k: nat, s: State)
    requires SafetyNeverPasses(step)
    requires k < |BlockedPath| && fuel >= |BlockedPath| - k
    requires k == 3 ==> s.safeguardLabel != "PASS"
    ensures Walk(step, fuel, BlockedPath[k], s).last == BlockedRest(step, k, s)
    decreases |BlockedPath| - k
  {
    var n := BlockedPath[k];
    var s' := step(n, s);
    var m := Next(n, s');
    if k == 2 {
      assert s'.safeguardLabel != "PASS";
    } else if k == 3 {
      assert s'.safeguardLabel == s.safeguardLabel;
    }
    BlockedNext(k, s');
    WalkStep(step, fuel, n, s, m, s');
    assert BlockedRest(step, k, s) == BlockedRest(step, k + 1, s');
    if k + 1 < |BlockedPath| {
      BlockedSuffixReturns(step, fuel - 1, k + 1, s');
    } else {
      WalkAtEnd(step, fuel - 1, s');
    }
  }

  /** A walk that starts at END runs nothing and has finished. */
  lemma WalkAtEnd(step: (Node, State) -> State, fuel: nat, s: State)
    ensures Walk(step, fuel, End, s).visited == []
    ensures Walk(step, fuel, End, s).finished
    ensures Walk(step, fuel, End, s).last == s
  {
  }

  /** Along the blocked path each node's successor is the next node, and
      after the last comes END, provided the decision node sees a label
      other than "PASS". */
  lemma BlockedNext(k: nat, s: State)
    requires k < |BlockedPath|
    requires k == 3 ==> s.safeguardLabel != "PASS"
    ensures k + 1 < |BlockedPath| ==> Next(BlockedPath[k], s) == BlockedPath[k + 1]
    ensures k + 1 == |BlockedPath| ==> Next(BlockedPath[k], s) == End
  {
    if k == 3 {
      assert Next(SafeguardDecision, s) == SafeguardFailResponse;
    }
  }

  lemma SliceCons<T>(p: seq<T>, k: nat)
    requires k < |p|
    ensures p[k..] == [p[k]] + p[k + 1..]
  {
  }

  /** One step of a walk: run the node, then walk on from its successor. */
  lemma WalkStep(step: (Node, State) -> State, fuel: nat, n: Node, s: State, m: Node, s': State)
    requires n != End && fuel > 0
    requires s' == step(n, s) && m == Next(n, s')
    ensures Walk(step, fuel, n, s).visited == [n] + Walk(step, fuel - 1, m, s').visited
    ensures Walk(step, fuel, n, s).finished == Walk(step, fuel - 1, m, s').finished
    ensures Walk(step, fuel, n, s).last == Walk(step, fuel - 1, m, s').last
  {
  }
}
