/** The check that the models a model refers to do not refer back to each other. */
module ReferenceCycles {

  // The subgraphs that each subgraph refers to. The main one may be any of them.
  type References = seq<seq<nat>>

  ghost predicate InRange(refs: References) {
    forall i, j :: 0 <= i < |refs| && 0 <= j < |refs[i]| ==> refs[i][j] < |refs|
  }

  /** A walk along references. */
  ghost predicate IsWalk(refs: References, walk: seq<nat>) {
    && walk != [] && walk[0] < |refs|
    && forall i :: 0 <= i < |walk| - 1 ==> walk[i] < |refs| && walk[i + 1] in refs[walk[i]]
  }

  /** A walk that starts at a subgraph and ends where it has been, or on the path to its start. */
  ghost predicate Returns(refs: References, start: nat, path: set<nat>, walk: seq<nat>) {
    IsWalk(refs, walk) && walk[0] == start && (walk[|walk| - 1] in path || walk[|walk| - 1] in walk[..|walk| - 1])
  }

  ghost predicate SomeReturn(refs: References, start: nat, path: set<nat>) {
    exists walk :: Returns(refs, start, path, walk)
  }

  lemma ReturnAtOnce(refs: References, start: nat, path: set<nat>)
    requires start < |refs| && start in path
    ensures SomeReturn(refs, start, path)
  {
    assert Returns(refs, start, path, [start]);
  }

  lemma ReturnLater(refs: References, start: nat, path: set<nat>, j: nat)
    requires InRange(refs) && start < |refs| && j < |refs[start]| && SomeReturn(refs, refs[start][j], path + {start})
    ensures SomeReturn(refs, start, path)
  {
    var walk :| Returns(refs, refs[start][j], path + {start}, walk);
    var longer := [start] + walk;
    assert longer[|longer| - 1] == walk[|walk| - 1];
    assert walk[|walk| - 1] in walk[..|walk| - 1] ==> walk[|walk| - 1] in longer[..|longer| - 1] by {
      assert longer[..|longer| - 1] == [start] + walk[..|walk| - 1];
    }
    assert longer[0] in longer[..|longer| - 1];
    assert forall i :: 0 < i < |longer| - 1 ==> longer[i] == walk[i - 1] && longer[i + 1] == walk[i];
    assert Returns(refs, start, path, longer);
  }

  lemma ReturnComesFrom(refs: References, start: nat, path: set<nat>)
    requires InRange(refs) && start < |refs| && start !in path && SomeReturn(refs, start, path)
    ensures exists j: nat :: j < |refs[start]| && SomeReturn(refs, refs[start][j], path + {start})
  {
    var walk :| Returns(refs, start, path, walk);
    assert |walk| > 1;
    var rest := walk[1..];
    var j :| 0 <= j < |refs[start]| && refs[start][j] == walk[1];
    assert walk[..|walk| - 1] == [start] + rest[..|rest| - 1];
    forall i: nat | i < |rest| - 1 ensures rest[i] < |refs| && rest[i + 1] in refs[rest[i]] {
      assert rest[i] == walk[i + 1];
    }
    assert Returns(refs, refs[start][j], path + {start}, rest);
  }

  function Below(n: nat): (r: set<nat>)
    ensures forall x: nat :: x in r <==> x < n
  {
    if n == 0 then {} else Below(n - 1) + {n - 1}
  }

  /** Follows the references from a subgraph, with the path to it. It ends on cyclic
      references too, and accepts exactly if there is no way back. */
  method CheckFrom(refs: References, start: nat, path0: set<nat>) returns (ok: bool, path: set<nat>)
    requires InRange(refs) && start < |refs| && path0 <= Below(|refs|)
    ensures ok <==> !SomeReturn(refs, start, path0)
    ensures ok ==> path == path0
    decreases |Below(|refs|) - path0|
  {
    path := path0;
    if start in path {
      ReturnAtOnce(refs, start, path);
      return false, path;
    }
    path := path + {start};
    Smaller(Below(|refs|), path0, start);
    for j := 0 to |refs[start]|
      invariant path == path0 + {start}
      invariant forall l :: 0 <= l < j ==> !SomeReturn(refs, refs[start][l], path0 + {start})
    {
      ok, path := CheckFrom(refs, refs[start][j], path);
      if !ok {
        ReturnLater(refs, start, path0, j);
        return false, path;
      }
    }
    if SomeReturn(refs, start, path0) { ReturnComesFrom(refs, start, path0); }
    path := path - {start};
    ok := true;
  }

  lemma Smaller(all: set<nat>, path: set<nat>, x: nat)
    requires x in all && x !in path
    ensures |all - (path + {x})| < |all - path|
  {
    assert all - path == all - (path + {x}) + {x};
  }

  /** A cycle that can be reached: a walk that comes to a subgraph twice. */
  ghost predicate ReachesCycle(refs: References, main: nat) {
    exists walk :: IsWalk(refs, walk) && walk[0] == main && exists i :: 0 <= i < |walk| - 1 && walk[i] == walk[|walk| - 1]
  }

  lemma InFront(walk: seq<nat>, x: nat)
    requires walk != []
    ensures x in walk[..|walk| - 1] <==> exists i :: 0 <= i < |walk| - 1 && walk[i] == x
  {
  }

  /** Accepts exactly the models from which no cycle can be reached. */
  method CheckNoReferenceCycles(refs: References, main: nat) returns (ok: bool)
    requires InRange(refs) && main < |refs|
    ensures ok <==> !ReachesCycle(refs, main)
  {
    var path;
    ok, path := CheckFrom(refs, main, {});
    forall walk ensures Returns(refs, main, {}, walk) <==> IsWalk(refs, walk) && walk[0] == main && exists i :: 0 <= i < |walk| - 1 && walk[i] == walk[|walk| - 1] {
      if IsWalk(refs, walk) { InFront(walk, walk[|walk| - 1]); }
    }
  }
}
