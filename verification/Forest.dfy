/** Parent links between task cards: chains, acyclicity and their length. */
module Forest {
  import opened Text

  /** A parent link for each card that depends on a card of the index. */
  type Links = map<string, string>

  /** The k-th ancestor of id. */
  ghost function Up(up: Links, id: string, k: nat): Option<string>
    decreases k
  {
    if k == 0 then Some(id)
    else if id !in up then None
    else Up(up, up[id], k - 1)
  }

  /** No card is its own proper ancestor. */
  ghost predicate Acyclic(up: Links)
  {
    forall id, k: nat :: k > 0 ==> Up(up, id, k) != Some(id)
  }

  /** No dependency chain has more than n links. */
  ghost predicate ChainsWithin(up: Links, n: nat)
  {
    forall id, k: nat :: Up(up, id, k).Some? ==> k <= n
  }

  /** No chain of more than n links leads up to id. */
  ghost predicate Below(up: Links, id: string, n: nat)
  {
    forall m, k: nat :: Up(up, m, k) == Some(id) ==> k <= n
  }

  lemma {:induction false} UpSplit(up: Links, id: string, i: nat, k: nat)
    ensures Up(up, id, i + k) == match Up(up, id, i) case None => None case Some(x) => Up(up, x, k)
    decreases i
  {
    if i > 0 && id in up {
      UpSplit(up, up[id], i - 1, k);
    }
  }

  /** A child has shorter chains below it than its parent. */
  lemma ChildBelow(up: Links, c: string, n: nat)
    requires c in up && Below(up, up[c], n + 1)
    ensures Below(up, c, n)
  {
    forall m, k: nat | Up(up, m, k) == Some(c) ensures k <= n {
      UpSplit(up, m, k, 1);
      assert Up(up, m, k + 1) == Some(up[c]);
    }
  }

  lemma ParentNotBelowZero(up: Links, c: string)
    requires c in up
    ensures !Below(up, up[c], 0)
  {
    assert Up(up, c, 1) == Some(up[c]);
  }

  ghost function Trail(up: Links, id: string, k: nat): set<string>
  {
    if k == 0 then {}
    else if Up(up, id, k - 1).None? then {}
    else Trail(up, id, k - 1) + {Up(up, id, k - 1).value}
  }

  lemma {:induction false} TrailMembers(up: Links, id: string, k: nat, x: string)
    requires x in Trail(up, id, k)
    ensures exists i: nat :: i < k && Up(up, id, i) == Some(x)
  {
    if x in Trail(up, id, k - 1) {
      TrailMembers(up, id, k - 1, x);
    } else {
      assert Up(up, id, k - 1) == Some(x);
    }
  }

  /** Without cycles the cards along a chain are all different, and each but the last has a link. */
  lemma {:induction false} TrailSize(up: Links, id: string, k: nat)
    requires Acyclic(up) && Up(up, id, k).Some?
    ensures |Trail(up, id, k)| == k && Trail(up, id, k) <= up.Keys
  {
    if k > 0 {
      UpSplit(up, id, k - 1, 1);
      TrailSize(up, id, k - 1);
      var x := Up(up, id, k - 1).value;
      if x in Trail(up, id, k - 1) {
        TrailMembers(up, id, k - 1, x);
        var i: nat :| i < k - 1 && Up(up, id, i) == Some(x);
        UpSplit(up, id, i, k - 1 - i);
        assert false;
      }
    }
  }

  lemma {:induction false} Around(up: Links, id: string, k: nat, n: nat)
    requires k > 0 && Up(up, id, k) == Some(id)
    ensures exists j: nat :: j >= n && Up(up, id, j) == Some(id)
  {
    if n == 0 {
      assert Up(up, id, 0) == Some(id);
    } else {
      Around(up, id, k, n - 1);
      var j: nat :| j >= n - 1 && Up(up, id, j) == Some(id);
      UpSplit(up, id, j, k);
      assert Up(up, id, j + k) == Some(id);
    }
  }

  /** Links are acyclic exactly when their chains are bounded, and then by the number of links. */
  lemma AcyclicIffBounded(up: Links)
    ensures Acyclic(up) ==> ChainsWithin(up, |up|)
    ensures Acyclic(up) <==> exists n: nat :: ChainsWithin(up, n)
  {
    if Acyclic(up) {
      forall id, k: nat | Up(up, id, k).Some? ensures k <= |up| {
        TrailSize(up, id, k);
        SubsetSize(Trail(up, id, k), up.Keys);
      }
      assert ChainsWithin(up, |up|);
    }
    if n: nat :| ChainsWithin(up, n) {
      forall id, k: nat | k > 0 ensures Up(up, id, k) != Some(id) {
        if Up(up, id, k) == Some(id) { Around(up, id, k, n + 1); }
      }
    }
  }

  /** p is c or an ancestor of ... c is reached from p by following links up. */
  ghost predicate Reaches(up: Links, p: string, c: string)
  {
    exists k: nat :: Up(up, p, k) == Some(c)
  }

  /** The first k cards on the way up from id include c. */
  ghost predicate Passes(up: Links, id: string, c: string, k: nat)
  {
    exists i: nat :: i < k && Up(up, id, i) == Some(c)
  }

  lemma {:induction false} AddedLinkPath(up: Links, c: string, p: string, id: string, k: nat)
    requires c !in up && Up(up[c := p], id, k).Some?
    ensures Up(up, id, k) == Up(up[c := p], id, k)
         || Passes(up, id, c, k)
    decreases k
  {
    if k > 0 {
      if id == c {
        assert Up(up, id, 0) == Some(id);
        assert Passes(up, id, id, k);
      } else {
        AddedLinkPath(up, c, p, up[id], k - 1);
        if Up(up, up[id], k - 1) != Up(up[c := p], up[id], k - 1) {
          var i: nat :| i < k - 1 && Up(up, up[id], i) == Some(c);
          assert Up(up, id, i + 1) == Some(c);
        }
      }
    }
  }

  lemma {:induction false} OldPathStays(up: Links, c: string, p: string, id: string, k: nat)
    requires c !in up && Up(up, id, k).Some?
    ensures Up(up[c := p], id, k) == Up(up, id, k)
    decreases k
  {
    if k > 0 {
      OldPathStays(up, c, p, up[id], k - 1);
    }
  }

  /** Linking the unlinked card c under p keeps the links acyclic exactly when p does not lead up to c. */
  lemma LinkKeepsAcyclicIff(up: Links, c: string, p: string)
    requires Acyclic(up) && c !in up
    ensures Acyclic(up[c := p]) <==> !Reaches(up, p, c)
  {
    var now := up[c := p];
    if k: nat :| Up(up, p, k) == Some(c) {
      OldPathStays(up, c, p, p, k);
      assert Up(now, c, k + 1) == Some(c);
    }
    if !Reaches(up, p, c) {
      forall id, k: nat | k > 0 ensures Up(now, id, k) != Some(id) {
        if Up(now, id, k) == Some(id) {
          NoNewCycle(up, c, p, id, k);
        }
      }
    }
  }

  /** A cycle through the new link would lead from p up to c on the old links. */
  lemma NoNewCycle(up: Links, c: string, p: string, id: string, k: nat)
    requires Acyclic(up) && c !in up && k > 0 && Up(up[c := p], id, k) == Some(id)
    ensures Reaches(up, p, c)
  {
    var now := up[c := p];
    AddedLinkPath(up, c, p, id, k);
    var i: nat :| i < k && Up(up, id, i) == Some(c);
    OldPathStays(up, c, p, id, i);
    // Turn the cycle so that it starts at c; its first step is the new link to p.
    UpSplit(now, id, i, k - i);
    UpSplit(now, c, k - i, i);
    assert Up(now, c, k) == Some(c);
    assert Up(now, p, k - 1) == Some(c);
    FirstArrival(up, c, p, p, k - 1);
  }

  /** On the way to c the old links suffice: the new one starts at c. */
  lemma {:induction false} FirstArrival(up: Links, c: string, p: string, x: string, k: nat)
    requires c !in up && Up(up[c := p], x, k) == Some(c)
    ensures Reaches(up, x, c)
    decreases k
  {
    if x == c {
      assert Up(up, x, 0) == Some(c);
    } else {
      FirstArrival(up, c, p, up[x], k - 1);
      var j: nat :| Up(up, up[x], j) == Some(c);
      assert Up(up, x, j + 1) == Some(c);
    }
  }
}
