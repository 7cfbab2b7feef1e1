/** Who waits for whom, as links from a task to the one it waits for: when a chain of waits
    comes to an end and when it bites its own tail. */
module Circles {
  import opened Chains

  /** For every task the number of the one it waits for, or NULL. */
  predicate IsLinks(next: seq<int>) {
    forall i :: 0 <= i < |next| ==> NULL <= next[i] < |next|
  }

  type Links = next: seq<int> | IsLinks(next) witness []

  /** Where `n` waits lead from task `i`, or the last task on the way. */
  function Follow(next: Links, i: nat, n: nat): (j: nat)
    requires i < |next|
    ensures j < |next|
    decreases n
  {
    if n == 0 || next[i] == NULL then i else Follow(next, next[i], n - 1)
  }

  ghost predicate LeadsTo(next: Links, i: nat, j: nat)
    requires i < |next|
  {
    exists n: nat :: Follow(next, i, n) == j
  }

  /** No task waits for itself, directly or through others. */
  ghost predicate NoCircle(next: Links) {
    forall i: nat, n: nat {:trigger Follow(next, i, n)} :: i < |next| && next[i] != NULL && n >= 1 ==>
      Follow(next, i, n) != i
  }

  lemma {:induction false} FollowOn(next: Links, i: nat, m: nat, n: nat)
    requires i < |next|
    ensures Follow(next, Follow(next, i, m), n) == Follow(next, i, m + n)
    decreases m
  {
    if m > 0 {
      if next[i] == NULL {
        Stuck(next, i, n);
      } else {
        FollowOn(next, next[i], m - 1, n);
      }
    }
  }

  lemma Stuck(next: Links, i: nat, n: nat)
    requires i < |next| && next[i] == NULL
    ensures Follow(next, i, n) == i
  {
  }

  /** A chain that has come to its end stays there. */
  lemma StaysAtEnd(next: Links, i: nat, a: nat, n: nat)
    requires i < |next| && a <= n && next[Follow(next, i, a)] == NULL
    ensures Follow(next, i, n) == Follow(next, i, a)
  {
    FollowOn(next, i, a, n - a);
    Stuck(next, Follow(next, i, a), n - a);
  }

  /** The last task of a chain of waits. */
  function End(next: Links, i: nat): (j: nat)
    requires i < |next|
    ensures j < |next|
  {
    Follow(next, i, |next|)
  }

  /** Every chain of waits ends with a task that waits for none. */
  lemma EveryWaitEnds(next: Links, i: nat)
    requires NoCircle(next) && i < |next|
    ensures next[End(next, i)] == NULL
  {
    var n := |next|;
    if next[Follow(next, i, n)] != NULL {
      var path := seq(n + 1, m requires 0 <= m => Follow(next, i, m));
      forall a, b | 0 <= a < b < |path| ensures path[a] != path[b] {
        FollowOn(next, i, a, b - a);
        GoesOn(next, i, a, n);
      }
      Pigeonhole(path, 0, n);
    }
  }

  lemma GoesOn(next: Links, i: nat, a: nat, n: nat)
    requires i < |next| && a <= n
    ensures next[Follow(next, i, n)] != NULL ==> next[Follow(next, i, a)] != NULL
  {
    if next[Follow(next, i, a)] == NULL {
      StaysAtEnd(next, i, a, n);
    }
  }

  /** A chain leads to a task that waits for none exactly when it ends there. */
  lemma LeadsToEnd(next: Links, i: nat, j: nat)
    requires NoCircle(next) && i < |next| && j < |next| && next[j] == NULL
    ensures LeadsTo(next, i, j) <==> End(next, i) == j
  {
    if LeadsTo(next, i, j) {
      var n: nat :| Follow(next, i, n) == j;
      EveryWaitEnds(next, i);
      if n <= |next| { StaysAtEnd(next, i, n, |next|); } else { StaysAtEnd(next, i, |next|, n); }
    }
  }

  // ---------------------------------------------------------------- fewer links

  /** As far as they go, fewer links lead the same way. */
  lemma {:induction false} FollowFewer(next: Links, fewer: Links, i: nat, n: nat)
    requires |fewer| == |next| && i < |next|
    requires forall j :: 0 <= j < |next| ==> fewer[j] == next[j] || fewer[j] == NULL
    ensures Follow(fewer, i, n) == Follow(next, i, n) || fewer[Follow(fewer, i, n)] == NULL
    decreases n
  {
    if n > 0 && fewer[i] != NULL {
      FollowFewer(next, fewer, fewer[i], n - 1);
    }
  }

  lemma FewerLinks(next: Links, fewer: Links)
    requires NoCircle(next) && |fewer| == |next|
    requires forall j :: 0 <= j < |next| ==> fewer[j] == next[j] || fewer[j] == NULL
    ensures NoCircle(fewer)
  {
    forall i: nat, n: nat | i < |fewer| && fewer[i] != NULL && n >= 1 ensures Follow(fewer, i, n) != i {
      FollowFewer(next, fewer, i, n);
    }
  }

  // ---------------------------------------------------------------- one link more

  /** Where a chain that never comes to `me` leads, a new link from `me` changes nothing. */
  lemma {:induction false} FollowPast(next: Links, me: nat, r: nat, i: nat, n: nat)
    requires me < |next| && r < |next| && next[me] == NULL && i < |next| && !LeadsTo(next, i, me)
    ensures Follow(next[me := r], i, n) == Follow(next, i, n)
    decreases n
  {
    assert Follow(next, i, 0) == i;
    if n > 0 && next[i] != NULL {
      forall m: nat ensures Follow(next, next[i], m) != me {
        assert Follow(next, i, m + 1) == Follow(next, next[i], m);
      }
      FollowPast(next, me, r, next[i], n - 1);
    }
  }

  /** With the new link a chain goes on as before, or comes to `me` and on from r. */
  lemma {:induction false} FollowMore(next: Links, me: nat, r: nat, i: nat, n: nat) returns (m: nat)
    requires me < |next| && r < |next| && next[me] == NULL && i < |next| && !LeadsTo(next, r, me)
    ensures m <= n
    ensures Follow(next[me := r], i, n) == Follow(next, i, n) ||
            (m < n && Follow(next, i, m) == me && Follow(next[me := r], i, n) == Follow(next, r, n - m - 1))
    decreases n
  {
    m := 0;
    if n > 0 {
      if i == me {
        FollowPast(next, me, r, r, n - 1);
      } else if next[i] != NULL {
        m := FollowMore(next, me, r, next[i], n - 1);
        m := m + 1;
      }
    }
  }

  /** A chain that came to `me` still does. */
  lemma {:induction false} StillLeads(next: Links, me: nat, r: nat, i: nat, n: nat) returns (m: nat)
    requires me < |next| && r < |next| && next[me] == NULL && i < |next| && Follow(next, i, n) == me
    ensures Follow(next[me := r], i, m) == me
    decreases n
  {
    if i == me {
      m := 0;
    } else {
      m := StillLeads(next, me, r, next[i], n - 1);
      m := m + 1;
    }
  }

  lemma CircleAtMe(next: Links, me: nat, r: nat)
    requires me < |next| && r < |next| && next[me] == NULL && LeadsTo(next, r, me)
    ensures !NoCircle(next[me := r])
  {
    var n: nat :| Follow(next, r, n) == me;
    var m := StillLeads(next, me, r, r, n);
    assert Follow(next[me := r], me, m + 1) == me;
  }

  lemma NoNewCircle(next: Links, me: nat, r: nat, i: nat, n: nat)
    requires NoCircle(next) && me < |next| && r < |next| && next[me] == NULL && !LeadsTo(next, r, me)
    requires i < |next| && next[me := r][i] != NULL && n >= 1
    ensures Follow(next[me := r], i, n) != i
  {
    if i == me {
      FollowPast(next, me, r, r, n - 1);
    } else {
      var m := FollowMore(next, me, r, i, n);
      if m < n && Follow(next, i, m) == me {
        FollowOn(next, r, n - m - 1, m);
      }
    }
  }

  /** Waiting for task r closes a circle exactly when r's own waits end at `me`. */
  lemma OneMoreLink(next: Links, me: nat, r: nat)
    requires NoCircle(next) && me < |next| && r < |next| && next[me] == NULL
    ensures NoCircle(next[me := r]) <==> End(next, r) != me
  {
    LeadsToEnd(next, r, me);
    if LeadsTo(next, r, me) {
      CircleAtMe(next, me, r);
    } else {
      var more: Links := next[me := r];
      forall i: nat, n: nat {:trigger Follow(more, i, n)} | i < |more| && more[i] != NULL && n >= 1
        ensures Follow(more, i, n) != i
      {
        NoNewCircle(next, me, r, i, n);
      }
    }
  }
}
