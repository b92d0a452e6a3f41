/**
 * Order does not matter: the chain, the bank and the operators confirm events in whatever order they
 * happen to, and every balance comes out the same.
 */
module BooksOrder {
  import opened Wrappers
  import opened Books
  import opened BooksIdentities
  import opened BooksReplay

  lemma {:induction false} EffectsAppend(a: seq<Booking>, b: seq<Booking>, line: Line)
    ensures Effects(a + b, line) == Effects(a, line) + Effects(b, line)
  {
    if |b| == 0 {
      assert a + b == a;
    } else {
      EffectsAppend(a, b[..|b| - 1], line);
      assert (a + b)[..|a + b| - 1] == a + b[..|b| - 1];
    }
  }

  /** A list with its k-th element taken out. */
  function Without(b: seq<Booking>, k: nat): seq<Booking>
    requires k < |b|
  {
    b[..k] + b[k + 1..]
  }

  lemma EffectsWithout(b: seq<Booking>, k: nat, line: Line)
    requires k < |b|
    ensures Effects(b, line) == Effects(Without(b, k), line) + Effect(b[k], line)
  {
    EffectsAppend(b[..k + 1], b[k + 1..], line);
    EffectsAppend(b[..k], b[k + 1..], line);
    assert b == b[..k + 1] + b[k + 1..] && b[..k + 1][..k] == b[..k];
  }

  lemma MultisetWithout(b: seq<Booking>, k: nat)
    requires k < |b|
    ensures multiset(Without(b, k)) == multiset(b) - multiset{b[k]}
  {
    assert b == b[..k] + [b[k]] + b[k + 1..];
  }

  lemma {:induction false} EffectsOfPermutation(a: seq<Booking>, b: seq<Booking>, line: Line)
    requires multiset(a) == multiset(b)
    ensures Effects(a, line) == Effects(b, line)
    decreases |a|
  {
    if |a| == 0 {
      assert |multiset(b)| == 0;
    } else {
      var n := |a| - 1;
      assert a[n] in multiset(b);
      var k :| 0 <= k < |b| && b[k] == a[n];
      MultisetWithout(a, n);
      MultisetWithout(b, k);
      EffectsOfPermutation(Without(a, n), Without(b, k), line);
      EffectsWithout(a, n, line);
      EffectsWithout(b, k, line);
    }
  }

  lemma {:induction false} FirstsAreSteps(steps: seq<Booking>)
    ensures forall b :: b in Firsts(steps) ==> b in steps
  {
    if |steps| > 0 {
      FirstsAreSteps(steps[..|steps| - 1]);
    }
  }

  /** No two of a run's first occurrences share a key. */
  predicate KeysDiffer(steps: seq<Booking>) {
    forall i, j :: 0 <= i < j < |steps| ==> KeyOf(steps[i].event) != KeyOf(steps[j].event)
  }

  lemma {:induction false} FirstsHaveOwnKeys(steps: seq<Booking>)
    requires Consistent(steps)
    ensures KeysDiffer(Firsts(steps))
  {
    if |steps| > 0 {
      var n := |steps| - 1;
      var firsts := Firsts(steps[..n]);
      ConsistentUpTo(steps, n);
      FirstsHaveOwnKeys(steps[..n]);
      FirstsAreSteps(steps[..n]);
      if !Occurs(steps[n].event, steps[..n]) {
        forall i | 0 <= i < |firsts|
          ensures KeyOf(firsts[i].event) != KeyOf(steps[n].event)
        {
          assert firsts[i] in steps[..n];
          var k :| 0 <= k < n && steps[..n][k] == firsts[i];
          assert steps[k].event != steps[n].event;
        }
      }
    }
  }

  /** With every key its own, no step of a run is a replay. */
  lemma {:induction false} AllAreWritten(steps: seq<Booking>)
    requires KeysDiffer(steps)
    ensures Written([], steps) == steps
  {
    if |steps| > 0 {
      var n := |steps| - 1;
      AllAreWritten(steps[..n]);
      KeyIsNew(steps);
      assert steps == steps[..n] + [steps[n]];
    }
  }

  lemma KeyIsNew(steps: seq<Booking>)
    requires |steps| > 0 && KeysDiffer(steps)
    ensures !Posted(Run([], steps[..|steps| - 1]), KeyOf(steps[|steps| - 1].event))
  {
    var n := |steps| - 1;
    forall j | 0 <= j < n
      ensures KeyOf(steps[..n][j].event) != KeyOf(steps[n].event)
    {
      assert steps[..n][j] == steps[j];
    }
    PostedOnlyFromSteps(steps[..n], KeyOf(steps[n].event));
  }

  lemma PostedOnlyFromSteps(steps: seq<Booking>, key: Key)
    requires forall j :: 0 <= j < |steps| ==> KeyOf(steps[j].event) != key
    ensures !Posted(Run([], steps), key)
  {
    if Posted(Run([], steps), key) {
      KeysComeFromSteps(steps, key);
    }
  }

  /**
   * Two runs whose first bookings are the same, in any order and each with any retries, leave the
   * same amount on every line: each account, each merchant's claim, both identities.
   */
  lemma OrderDoesNotMatter(one: seq<Booking>, other: seq<Booking>, line: Line)
    requires Consistent(one) && Consistent(other)
    requires multiset(Firsts(one)) == multiset(Firsts(other))
    ensures Tally(Run([], one), line) == Tally(Run([], other), line)
  {
    TallyOfFirsts(one, line);
    TallyOfFirsts(other, line);
    EffectsOfPermutation(Firsts(one), Firsts(other), line);
  }

  lemma TallyOfFirsts(steps: seq<Booking>, line: Line)
    requires Consistent(steps)
    ensures Tally(Run([], steps), line) == Effects(Firsts(steps), line)
  {
    ReplayIsNoOp([], steps);
    FirstsHaveOwnKeys(steps);
    AllAreWritten(Firsts(steps));
    RunTally([], Firsts(steps), line);
  }
}
