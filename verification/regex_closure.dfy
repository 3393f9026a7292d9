/** Which states an automaton can be in after reading some text: the set the
    lock-step simulation keeps (src/stdlib/regex.c:606-684). */
module RegexClosure {
  import opened RegexSyntax
  import opened RegexNfa

  /** The states one silent move away. */
  ghost function Silently(P: Pool, a: nat): set<nat>
    requires Closed(P) && a < |P|
    ensures forall b <- Silently(P, a) :: b < |P|
  {
    assert ClosedState(P, a);
    if P[a].c == SPLIT then {P[a].out.state, P[a].outAlt.state}
    else if P[a].c == NONE then {P[a].out.state}
    else {}
  }

  ghost predicate ReachesIn(P: Pool, a: nat, b: nat, n: nat)
    requires Closed(P) && a < |P|
    decreases n
  {
    a == b || (n > 0 && exists x <- Silently(P, a) :: ReachesIn(P, x, b, n - 1))
  }

  /** Silent moves lead from a to b. */
  ghost predicate Reaches(P: Pool, a: nat, b: nat)
    requires Closed(P) && a < |P|
  {
    exists n: nat :: ReachesIn(P, a, b, n)
  }

  ghost predicate Within(P: Pool, X: set<nat>) {
    forall x <- X :: x < |P|
  }

  ghost predicate ReachedFrom(P: Pool, X: set<nat>, t: nat)
    requires Closed(P) && Within(P, X)
  {
    exists x <- X :: Reaches(P, x, t)
  }

  ghost function Closure(P: Pool, X: set<nat>): (Y: set<nat>)
    requires Closed(P) && Within(P, X)
    ensures Within(P, Y)
  {
    set t | 0 <= t < |P| && ReachedFrom(P, X, t)
  }

  /** Where the states of S go on character c. */
  ghost function Moves(P: Pool, S: set<nat>, c: Ascii, ic: bool): (Y: set<nat>)
    requires Closed(P) && Within(P, S)
    ensures Within(P, Y)
  {
    assert forall t <- S :: ClosedState(P, t);
    set t | t in S && Consumes(P[t], c, ic) :: P[t].out.state
  }

  /** All states reachable from `start` on the text u. */
  ghost function After(P: Pool, start: nat, u: seq<Ascii>, ic: bool): (S: set<nat>)
    requires Closed(P) && start < |P|
    ensures Within(P, S)
  {
    if u == [] then Closure(P, {start})
    else Closure(P, Moves(P, After(P, start, u[..|u| - 1], ic), u[|u| - 1], ic))
  }

  lemma AfterOneMore(P: Pool, start: nat, u: seq<Ascii>, c: Ascii, ic: bool)
    requires Closed(P) && start < |P|
    ensures After(P, start, u + [c], ic) == Closure(P, Moves(P, After(P, start, u, ic), c, ic))
    ensures Closure(P, Moves(P, {}, c, ic)) == {}
  {
    assert (u + [c])[..|u|] == u;
  }

  // ----- closures by marking -----

  /** Every marked state outside `gray` has its silent successors marked. */
  ghost predicate Settled(P: Pool, M: set<nat>, gray: set<nat>)
    requires Closed(P) && Within(P, M)
  {
    forall x | x in M && x !in gray :: Silently(P, x) <= M
  }

  /** Marking s and working on it ... */
  lemma SettledBegin(P: Pool, M: set<nat>, gray: set<nat>, s: nat)
    requires Closed(P) && Within(P, M) && s < |P| && Settled(P, M, gray)
    ensures Settled(P, M + {s}, gray + {s})
  {}

  /** ... until its silent successors are marked, too. */
  lemma SettledEnd(P: Pool, M: set<nat>, gray: set<nat>, s: nat)
    requires Closed(P) && Within(P, M) && s in M && Settled(P, M, gray + {s}) && Silently(P, s) <= M
    ensures Settled(P, M, gray)
  {}

  lemma {:induction false} SettledReach(P: Pool, M: set<nat>, a: nat, b: nat, n: nat)
    requires Closed(P) && Within(P, M) && Settled(P, M, {})
    requires a in M && ReachesIn(P, a, b, n)
    ensures b in M
    decreases n
  {
    if a != b {
      var x :| x in Silently(P, a) && ReachesIn(P, x, b, n - 1);
      SettledReach(P, M, x, b, n - 1);
    }
  }

  /** A settled set that holds X and only states reachable from X is X's closure. */
  lemma SettledIsClosure(P: Pool, M: set<nat>, X: set<nat>)
    requires Closed(P) && Within(P, M) && Within(P, X) && Settled(P, M, {})
    requires X <= M && forall t <- M :: ReachedFrom(P, X, t)
    ensures M == Closure(P, X)
  {
    forall t | t in Closure(P, X) ensures t in M {
      var x :| x in X && Reaches(P, x, t);
      var n: nat :| ReachesIn(P, x, t, n);
      SettledReach(P, M, x, t, n);
    }
    assert forall t <- M :: 0 <= t < |P|;
  }

  lemma ReachesSelf(P: Pool, a: nat)
    requires Closed(P) && a < |P|
    ensures Reaches(P, a, a)
  {
    assert ReachesIn(P, a, a, 0);
  }

  lemma ReachesFirst(P: Pool, a: nat, x: nat, b: nat)
    requires Closed(P) && a < |P| && x in Silently(P, a) && Reaches(P, x, b)
    ensures Reaches(P, a, b)
  {
    var n: nat :| ReachesIn(P, x, b, n);
    assert ReachesIn(P, a, b, n + 1);
  }

  /** What one more state adds to the moves of a set. */
  lemma MovesAdd(P: Pool, T: set<nat>, s: nat, c: Ascii, ic: bool)
    requires Closed(P) && Within(P, T) && s < |P| && ClosedState(P, s)
    ensures Moves(P, T + {s}, c, ic)
         == Moves(P, T, c, ic) + if Consumes(P[s], c, ic) then {P[s].out.state} else {}
  {}

  /** Silent states move on no character. */
  lemma MovesOfListed(P: Pool, T: set<nat>, S: set<nat>, c: Ascii, ic: bool)
    requires Closed(P) && Within(P, S) && T <= S
    requires forall x | x in S && !P[x].Silent() :: x in T
    ensures Moves(P, T, c, ic) == Moves(P, S, c, ic)
  {}

  /** Marking what is reachable from one more state closes one more state. */
  lemma ClosureAdd(P: Pool, X: set<nat>, o: nat, M: set<nat>, M': set<nat>)
    requires Closed(P) && Within(P, X) && o < |P| && Within(P, M')
    requires M == Closure(P, X) && M <= M' && o in M' && Settled(P, M', {})
    requires forall t <- M' - M :: Reaches(P, o, t)
    ensures M' == Closure(P, X + {o})
  {
    forall x | x in X + {o} ensures x in M' {
      ReachesSelf(P, x);
      assert x in X ==> x in M;
    }
    forall t | t in M' ensures ReachedFrom(P, X + {o}, t) {
      if t in M {
        var x :| x in X && Reaches(P, x, t);
        assert x in X + {o};
      }
    }
    SettledIsClosure(P, M', X + {o});
  }

  // ----- the closure accepts what the state accepts -----

  /** An accepting run first makes its silent moves. */
  lemma {:induction false} AcceptsThrough(P: Pool, a: nat, w: seq<Ascii>, ic: bool, n: nat)
    returns (t: nat)
    requires Closed(P) && a < |P| && AcceptsIn(P, To(a), w, ic, n)
    ensures Reaches(P, a, t) && t < |P| && !P[t].Silent() && Accepts(P, To(t), w, ic)
    decreases n
  {
    assert ClosedState(P, a);
    if P[a].Silent() {
      var x := if AcceptsIn(P, P[a].out, w, ic, n - 1) then P[a].out.state else P[a].outAlt.state;
      t := AcceptsThrough(P, x, w, ic, n - 1);
      ReachesFirst(P, a, x, t);
    } else {
      t := a;
      ReachesSelf(P, a);
    }
  }

  lemma {:induction false} AcceptsBack(P: Pool, a: nat, t: nat, w: seq<Ascii>, ic: bool, n: nat)
    requires Closed(P) && a < |P| && ReachesIn(P, a, t, n) && Accepts(P, To(t), w, ic)
    ensures Accepts(P, To(a), w, ic)
    decreases n
  {
    if a != t {
      var x :| x in Silently(P, a) && ReachesIn(P, x, t, n - 1);
      AcceptsBack(P, x, t, w, ic, n - 1);
      assert ClosedState(P, a);
      StepInto(P, To(a), To(x), w, ic);
    }
  }

  ghost predicate SomeAccepts(P: Pool, S: set<nat>, w: seq<Ascii>, ic: bool) {
    exists t <- S :: Accepts(P, To(t), w, ic)
  }

  lemma ClosureAccepts(P: Pool, X: set<nat>, w: seq<Ascii>, ic: bool)
    requires Closed(P) && Within(P, X)
    ensures SomeAccepts(P, Closure(P, X), w, ic) <==> SomeAccepts(P, X, w, ic)
  {
    if SomeAccepts(P, Closure(P, X), w, ic) {
      var t :| t in Closure(P, X) && Accepts(P, To(t), w, ic);
      var x :| x in X && Reaches(P, x, t);
      var n: nat :| ReachesIn(P, x, t, n);
      AcceptsBack(P, x, t, w, ic, n);
    }
    if SomeAccepts(P, X, w, ic) {
      var x :| x in X && Accepts(P, To(x), w, ic);
      ReachesSelf(P, x);
      assert x in Closure(P, X);
    }
  }

  /** In a closure, the states that consume c continue the accepting runs. */
  lemma MovesAccept(P: Pool, X: set<nat>, w: seq<Ascii>, ic: bool)
    requires Closed(P) && Within(P, X) && w != []
    ensures var C := Closure(P, X);
            SomeAccepts(P, C, w, ic) <==> SomeAccepts(P, Moves(P, C, w[0], ic), w[1..], ic)
  {
    var C := Closure(P, X);
    if SomeAccepts(P, C, w, ic) {
      ClosureAccepts(P, X, w, ic);
      var x :| x in X && Accepts(P, To(x), w, ic);
      var n: nat :| AcceptsIn(P, To(x), w, ic, n);
      var t := AcceptsThrough(P, x, w, ic, n);
      assert t in C;
      MoveForward(P, C, t, w, ic);
    }
    if SomeAccepts(P, Moves(P, C, w[0], ic), w[1..], ic) {
      MoveBack(P, C, w, ic);
    }
  }

  lemma MoveForward(P: Pool, C: set<nat>, t: nat, w: seq<Ascii>, ic: bool)
    requires Closed(P) && Within(P, C) && w != []
    requires t in C && !P[t].Silent() && Accepts(P, To(t), w, ic)
    ensures SomeAccepts(P, Moves(P, C, w[0], ic), w[1..], ic)
  {
    var m: nat :| AcceptsIn(P, To(t), w, ic, m);
    assert ClosedState(P, t);
    assert Consumes(P[t], w[0], ic) && AcceptsIn(P, P[t].out, w[1..], ic, m - 1);
    assert P[t].out.state in Moves(P, C, w[0], ic) && P[t].out == To(P[t].out.state);
  }

  lemma MoveBack(P: Pool, C: set<nat>, w: seq<Ascii>, ic: bool)
    requires Closed(P) && Within(P, C) && w != []
    requires SomeAccepts(P, Moves(P, C, w[0], ic), w[1..], ic)
    ensures SomeAccepts(P, C, w, ic)
  {
    var y :| y in Moves(P, C, w[0], ic) && Accepts(P, To(y), w[1..], ic);
    assert forall t <- C :: ClosedState(P, t);
    var t :| t in C && Consumes(P[t], w[0], ic) && P[t].out.state == y;
    ConsumeInto(P, t, To(y), w, ic);
  }

  /** After reading u, what is left to accept is what the start accepted of u + w. */
  lemma {:induction false} AfterAccepts(P: Pool, start: nat, u: seq<Ascii>, w: seq<Ascii>, ic: bool)
    requires Closed(P) && start < |P|
    ensures SomeAccepts(P, After(P, start, u, ic), w, ic) <==> Accepts(P, To(start), u + w, ic)
    decreases |u|
  {
    if u == [] {
      assert u + w == w;
      ClosureAccepts(P, {start}, w, ic);
    } else {
      var v, c := u[..|u| - 1], u[|u| - 1];
      assert u + w == v + ([c] + w);
      AfterAccepts(P, start, v, [c] + w, ic);
      ClosureAccepts(P, Moves(P, After(P, start, v, ic), c, ic), w, ic);
      assert ([c] + w)[1..] == w;
      if v == [] {
        MovesAccept(P, {start}, [c] + w, ic);
      } else {
        MovesAccept(P, Moves(P, After(P, start, v[..|v| - 1], ic), v[|v| - 1], ic), [c] + w, ic);
      }
    }
  }

  /** A non-silent state accepts nothing more exactly when it is MATCH. */
  lemma MatchAccepts(P: Pool, start: nat, u: seq<Ascii>, ic: bool)
    requires Closed(P) && start < |P|
    ensures (exists t <- After(P, start, u, ic) :: P[t].c == MATCH) <==> Accepts(P, To(start), u, ic)
  {
    AfterAccepts(P, start, u, [], ic);
    assert u + [] == u;
    var S := After(P, start, u, ic);
    if t :| t in S && P[t].c == MATCH {
      assert AcceptsIn(P, To(t), [], ic, 0);
    }
    if SomeAccepts(P, S, [], ic) {
      var X := if u == [] then {start} else Moves(P, After(P, start, u[..|u| - 1], ic), u[|u| - 1], ic);
      ClosureAccepts(P, X, [], ic);
      var x :| x in X && Accepts(P, To(x), [], ic);
      var n: nat :| AcceptsIn(P, To(x), [], ic, n);
      var t := AcceptsThrough(P, x, [], ic, n);
      assert t in S && P[t].c == MATCH;
    }
  }
}
