/** Where the statuses a board starts with end up: along which paths and after how many rounds they arrive. */
module Arrivals {
  import opened Text
  import opened Forest
  import opened RollUp
  import opened Settling
  import opened ClosedForm
  import opened Rounds

  /** How many of the first k steps up from x wait for the next round. */
  ghost function Delay(up: Links, ps: seq<string>, x: string, k: nat): nat
    decreases k
  {
    if k == 0 || x !in up then 0
    else (if Lag(ps, x, up[x]) then 1 else 0) + Delay(up, ps, up[x], k - 1)
  }

  lemma {:induction false} DelaySplit(up: Links, ps: seq<string>, x: string, i: nat, k: nat)
    requires Up(up, x, i).Some?
    ensures Delay(up, ps, x, i + k) == Delay(up, ps, x, i) + Delay(up, ps, Up(up, x, i).value, k)
    decreases i
  {
    if i > 0 { DelaySplit(up, ps, up[x], i - 1, k); }
  }

  lemma {:induction false} DelayBound(up: Links, ps: seq<string>, x: string, k: nat)
    ensures Delay(up, ps, x, k) <= k
    decreases k
  {
    if k > 0 && x in up { DelayBound(up, ps, up[x], k - 1); }
  }


  /** The status x starts with reaches p in round n over k links. The status of a card without children is read
      again in every round; that of a parent only once, and only if it is read before the card is visited. */
  ghost predicate Via(g: Loop, x: string, p: string, n: nat, k: nat)
  {
    var up := LinksOf(g.index);
    && Up(up, x, k) == Some(p)
    && if x in g.parents then Delay(up, g.parents, x, k) == n && (k > 0 && x in up ==> Lag(g.parents, x, up[x]))
       else Delay(up, g.parents, x, k) <= n
  }

  ghost predicate Arrives(g: Loop, x: string, p: string, n: nat)
  {
    exists k: nat :: Via(g, x, p, n, k)
  }

  /** The round in which the visit to p in round n + 1 gets what it reads from c. */
  function ReadRound(g: Loop, n: nat, p: string, c: string): nat
  {
    if Lag(g.parents, c, p) then n else n + 1
  }

  lemma OneStep(up: Links, ps: seq<string>, c: string)
    requires c in up
    ensures Delay(up, ps, c, 1) == if Lag(ps, c, up[c]) then 1 else 0
    ensures Up(up, c, 1) == Some(up[c])
  {
    assert Delay(up, ps, up[c], 0) == 0 && Up(up, up[c], 0) == Some(up[c]);
  }

  lemma OneMore(up: Links, ps: seq<string>, x: string, c: string, k: nat)
    requires Up(up, x, k) == Some(c) && c in up
    ensures Delay(up, ps, x, k + 1) == Delay(up, ps, x, k) + if Lag(ps, c, up[c]) then 1 else 0
    ensures Up(up, x, k + 1) == Some(up[c])
  {
    UpSplit(up, x, k, 1);
    DelaySplit(up, ps, x, k, 1);
    OneStep(up, ps, c);
  }

  lemma DelaySnoc(g: Loop, x: string, p: string, c: string, k: nat)
    requires c in Kids(g.order, g.index, p) && Up(LinksOf(g.index), x, k) == Some(c)
    ensures Delay(LinksOf(g.index), g.parents, x, k + 1)
      == Delay(LinksOf(g.index), g.parents, x, k) + if Lag(g.parents, c, p) then 1 else 0
    ensures Up(LinksOf(g.index), x, k + 1) == Some(p)
  {
    KidLinks(g.order, g.index, p, c);
    OneMore(LinksOf(g.index), g.parents, x, c, k);
  }

  lemma ViaDown(g: Loop, x: string, p: string, n: nat, k: nat) returns (c: string)
    requires p in g.parents && k > 0 && Via(g, x, p, n + 1, k)
    ensures c in Kids(g.order, g.index, p) && Via(g, x, c, ReadRound(g, n, p, c), k - 1)
  {
    c := ThroughChild(g.order, g.index, p, x, k);
    DelaySnoc(g, x, p, c, k - 1);
  }

  lemma ViaUp(g: Loop, x: string, p: string, n: nat, c: string, k: nat)
    requires p in g.parents && c in Kids(g.order, g.index, p) && Via(g, x, c, ReadRound(g, n, p, c), k)
    ensures Via(g, x, p, n + 1, k + 1)
  {
    DelaySnoc(g, x, p, c, k);
    KidLinks(g.order, g.index, p, c);
  }

  lemma ViaMoves(g: Loop, x: string, p: string, n: nat, k: nat)
    requires p in g.parents && Via(g, x, p, n + 1, k)
    ensures k > 0
  {
  }

  /** x reaches child c of p in time for the visit to p in round n + 1. */
  ghost predicate ThroughKid(g: Loop, x: string, p: string, n: nat, c: string)
  {
    c in Kids(g.order, g.index, p) && Arrives(g, x, c, ReadRound(g, n, p, c))
  }

  /** What reaches p in the next round is what its children hold when p reads them. */
  lemma ArrivesStep(g: Loop, x: string, p: string, n: nat)
    requires p in g.parents
    ensures Arrives(g, x, p, n + 1) <==> exists c :: ThroughKid(g, x, p, n, c)
  {
    var next := n + 1;
    if k: nat :| Via(g, x, p, next, k) {
      ViaMoves(g, x, p, n, k);
      var c := ViaDown(g, x, p, n, k);
      assert ThroughKid(g, x, p, n, c);
    }
    if c :| ThroughKid(g, x, p, n, c) {
      var k: nat :| Via(g, x, c, ReadRound(g, n, p, c), k);
      ViaUp(g, x, p, n, c, k);
    }
  }

  /** Only itself reaches a card without children. */
  lemma LeafArrival(g: Loop, x: string, p: string, n: nat)
    requires p in g.index && p !in g.parents
    ensures Arrives(g, x, p, n) <==> x == p
  {
    ParentIff(g, p);
    if k: nat :| Via(g, x, p, n, k) {
      if k > 0 { var _ := ThroughChild(g.order, g.index, p, x, k); }
    }
    assert Via(g, p, p, n, 0);
  }

  lemma MovesTakeRounds(g: Loop, x: string, p: string, k: nat)
    requires k > 0
    ensures !Via(g, x, p, 0, k)
  {
    var up := LinksOf(g.index);
    if x in up && Lag(g.parents, x, up[x]) { assert Delay(up, g.parents, x, k) >= 1; }
  }

  /** Nothing has moved before the first round. */
  lemma StartArrival(g: Loop, x: string, p: string)
    ensures Arrives(g, x, p, 0) <==> x == p
  {
    if k: nat :| Via(g, x, p, 0, k) {
      if k > 0 { MovesTakeRounds(g, x, p, k); }
    }
    assert Via(g, p, p, 0, 0);
  }

  // ---- ranks ----

  /** t is the highest rank that arrives. */
  ghost predicate TopAt(g: Loop, p: string, n: nat, t: nat)
  {
    && (exists x :: x in g.index && Arrives(g, x, p, n) && Rank(g.index[x].status) == t)
    && (forall x :: x in g.index && Arrives(g, x, p, n) ==> Rank(g.index[x].status) <= t)
  }

  lemma SelfTop(g: Loop, p: string, n: nat)
    requires p in g.index && forall x :: Arrives(g, x, p, n) <==> x == p
    ensures TopAt(g, p, n, Rank(g.index[p].status))
  {
    assert Arrives(g, p, p, n);
  }

  /** What p reads from its child c is the highest rank that has reached c. */
  ghost predicate KidTop(g: Loop, p: string, n: nat, c: string)
  {
    var m := ReadRound(g, n, p, c);
    c in g.index && TopAt(g, c, m, RankAt(g, m, c))
  }

  ghost predicate KidsTop(g: Loop, p: string, n: nat)
  {
    forall c :: c in Kids(g.order, g.index, p) ==> KidTop(g, p, n, c)
  }

  lemma SeenRank(g: Loop, p: string, n: nat, c: string)
    requires c in g.index
    ensures Rank(Seen(g, n, p)[c]) == RankAt(g, ReadRound(g, n, p, c), c)
  {
  }

  lemma TopBound(g: Loop, p: string, n: nat, t: nat, y: string)
    requires p in g.parents && KidsTop(g, p, n) && Highest(Kids(g.order, g.index, p), Seen(g, n, p), t)
    requires y in g.index && Arrives(g, y, p, n + 1)
    ensures Rank(g.index[y].status) <= t
  {
    ArrivesStep(g, y, p, n);
    var c :| ThroughKid(g, y, p, n, c);
    assert KidTop(g, p, n, c);
    SeenRank(g, p, n, c);
  }

  lemma TopAttained(g: Loop, p: string, n: nat, t: nat) returns (x: string)
    requires p in g.parents && KidsTop(g, p, n) && Highest(Kids(g.order, g.index, p), Seen(g, n, p), t)
    ensures x in g.index && Arrives(g, x, p, n + 1) && Rank(g.index[x].status) == t
  {
    var c :| c in Kids(g.order, g.index, p) && c in Seen(g, n, p) && Rank(Seen(g, n, p)[c]) == t;
    assert KidTop(g, p, n, c);
    SeenRank(g, p, n, c);
    x :| x in g.index && Arrives(g, x, c, ReadRound(g, n, p, c)) && Rank(g.index[x].status) == t;
    assert ThroughKid(g, x, p, n, c);
    ArrivesStep(g, x, p, n);
  }

  lemma HighestIsTop(g: Loop, p: string, n: nat, t: nat)
    requires p in g.parents && KidsTop(g, p, n) && Highest(Kids(g.order, g.index, p), Seen(g, n, p), t)
    ensures TopAt(g, p, n + 1, t)
  {
    var x := TopAttained(g, p, n, t);
    forall y | y in g.index && Arrives(g, y, p, n + 1) ensures Rank(g.index[y].status) <= t { TopBound(g, p, n, t, y); }
  }

  lemma TopStep(g: Loop, p: string, n: nat)
    requires p in g.parents && p in g.index && KidsTop(g, p, n)
    ensures TopAt(g, p, n + 1, RankAt(g, n + 1, p))
  {
    var t := RankAt(g, n + 1, p);
    RankStep(g, n, p);
    HighestIsTop(g, p, n, t);
  }

  lemma StartTop(g: Loop, p: string)
    requires p in g.index
    ensures TopAt(g, p, 0, RankAt(g, 0, p))
  {
    forall x ensures Arrives(g, x, p, 0) <==> x == p { StartArrival(g, x, p); }
    SelfTop(g, p, 0);
    assert After(g, 0) == g.index;
  }

  lemma LeafTop(g: Loop, p: string, n: nat)
    requires p in g.index && p !in g.parents
    ensures TopAt(g, p, n, RankAt(g, n, p))
  {
    forall x ensures Arrives(g, x, p, n) <==> x == p { LeafArrival(g, x, p, n); }
    LeafStays(g, n, p);
    SelfTop(g, p, n);
  }

  // ---- induction over rounds and visits ----

  ghost predicate KidsHold(g: Loop, Q: (string, nat) -> bool, p: string, n: nat)
  {
    forall c :: c in Kids(g.order, g.index, p) ==> Q(c, ReadRound(g, n, p, c))
  }

  /** Q holds at the start and of the cards without children, and of a parent after a round once it holds of
      what the parent read. */
  ghost predicate Inductive(g: Loop, Q: (string, nat) -> bool)
  {
    && (forall p :: p in g.index ==> Q(p, 0))
    && (forall p, n: nat :: p in g.index && p !in g.parents ==> Q(p, n))
    && (forall p, n: nat :: p in g.parents && KidsHold(g, Q, p, n) ==> Q(p, n + 1))
  }

  lemma {:induction false} RoundInduction(g: Loop, Q: (string, nat) -> bool, p: string, n: nat)
    requires Inductive(g, Q) && p in g.index
    ensures Q(p, n)
    decreases n, if p in g.parents then Place(g.parents, p) + 1 else 0
  {
    if n > 0 && p in g.parents {
      forall c | c in Kids(g.order, g.index, p) ensures Q(c, ReadRound(g, n - 1, p, c)) {
        KidLinks(g.order, g.index, p, c);
        RoundInduction(g, Q, c, ReadRound(g, n - 1, p, c));
      }
      assert KidsHold(g, Q, p, n - 1);
    }
  }

  ghost function Topped(g: Loop): (string, nat) -> bool
  {
    (p: string, n: nat) => p in g.index && TopAt(g, p, n, RankAt(g, n, p))
  }

  lemma ToppedStep(g: Loop, p: string, n: nat)
    requires p in g.parents && KidsHold(g, Topped(g), p, n)
    ensures Topped(g)(p, n + 1)
  {
    ParentInIndex(g, p);
    forall c | c in Kids(g.order, g.index, p) ensures KidTop(g, p, n, c) {
      assert Topped(g)(c, ReadRound(g, n, p, c));
    }
    TopStep(g, p, n);
  }

  lemma ToppedInductive(g: Loop)
    ensures Inductive(g, Topped(g))
  {
    forall p | p in g.index ensures Topped(g)(p, 0) { StartTop(g, p); }
    forall p, n: nat | p in g.index && p !in g.parents ensures Topped(g)(p, n) { LeafTop(g, p, n); }
    forall p, n: nat | p in g.parents && KidsHold(g, Topped(g), p, n) ensures Topped(g)(p, n + 1) { ToppedStep(g, p, n); }
  }

  /** After n rounds every card ranks as the highest of the first statuses that reach it in round n. */
  lemma RankIsTop(g: Loop, p: string, n: nat)
    requires p in g.index
    ensures TopAt(g, p, n, RankAt(g, n, p))
  {
    ToppedInductive(g);
    RoundInduction(g, Topped(g), p, n);
    assert Topped(g)(p, n);
  }
}
