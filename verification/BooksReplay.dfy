/**
 * Replays: an event that was booked once is never booked again, whatever happened to the settings
 * in between, so each key's rows in the ledger are exactly its event's one group.
 */
module BooksReplay {
  import opened Wrappers
  import opened Money
  import opened Books

  /** The event can add nothing any more: it is in the books, or it never had a figure to write. */
  ghost predicate Absorbed(log: seq<Entry>, e: Event) {
    Posted(log, KeyOf(e)) || forall p :: Group(e, p) == []
  }

  /** Whether a group is empty does not depend on the percent: a zero fee has only zero shares. */
  lemma EmptinessIgnoresPercent(e: Event, p: real, q: real)
    requires Group(e, p) == []
    ensures Group(e, q) == []
  {
    KeptIsEmpty(Rows(e, p));
    KeptIsEmpty(Rows(e, q));
    var rp, rq := Rows(e, p), Rows(e, q);
    if e.InvoicePaid? || e.SettlementFunded? || (e.RefundSent? && e.invoice.Some?) {
      var n := |rp|;
      assert rp[n - 1].amount == 0.0 && rp[n - 2].amount == 0.0;
      ZeroFeeHasZeroShares(if e.RefundSent? then e.invoice.value.feeAmount.GetOr(0.0) else e.feeAmount, p, q);
      assert forall i :: 0 <= i < n - 2 ==> rq[i] == rp[i];
    } else {
      assert rp == rq;
    }
  }

  lemma ZeroFeeHasZeroShares(fee: real, p: real, q: real)
    ensures var s, t := SplitGatewayFee(fee, p), SplitGatewayFee(fee, q);
            s.gateway == 0.0 && s.freezone == 0.0 ==> t.gateway == 0.0 && t.freezone == 0.0
  {
    if fee == 0.0 {
      assert Times(fee, q) == 0.0;
    }
  }

  lemma PostedSticks(log: seq<Entry>, b: Booking, key: Key)
    ensures Posted(log, key) ==> Posted(Step(log, b), key)
  {
    if Posted(log, key) {
      var i :| 0 <= i < |log| && log[i].context.key == key;
      assert Step(log, b)[i] == log[i];
    }
  }

  lemma StepAbsorbs(log: seq<Entry>, b: Booking)
    ensures Absorbed(Step(log, b), b.event)
  {
    var g := Group(b.event, b.percent);
    if !Posted(log, KeyOf(b.event)) {
      if g == [] {
        forall q
          ensures Group(b.event, q) == []
        {
          EmptinessIgnoresPercent(b.event, b.percent, q);
        }
      } else {
        assert Step(log, b)[|log|] == g[0];
      }
    }
  }

  lemma {:induction false} RunAbsorbs(log: seq<Entry>, steps: seq<Booking>, j: nat)
    requires j < |steps|
    ensures Absorbed(Run(log, steps), steps[j].event)
  {
    var n := |steps| - 1;
    if j == n {
      StepAbsorbs(Run(log, steps[..n]), steps[n]);
    } else {
      RunAbsorbs(log, steps[..n], j);
      PostedSticks(Run(log, steps[..n]), steps[n], KeyOf(steps[j].event));
    }
  }

  predicate Occurs(e: Event, steps: seq<Booking>) {
    exists j :: 0 <= j < |steps| && steps[j].event == e
  }

  /** A run with every repetition of an event struck out, wherever it stands. */
  function Firsts(steps: seq<Booking>): seq<Booking> {
    if |steps| == 0 then []
    else
      var n := |steps| - 1;
      Firsts(steps[..n]) + (if Occurs(steps[n].event, steps[..n]) then [] else [steps[n]])
  }

  /**
   * Replay is a no-op: any run leaves exactly the entries its first occurrences alone would leave,
   * though the percent changed before a repeat, and though some groups had every row dropped.
   */
  lemma {:induction false} ReplayIsNoOp(log: seq<Entry>, steps: seq<Booking>)
    ensures Run(log, steps) == Run(log, Firsts(steps))
  {
    if |steps| > 0 {
      var n := |steps| - 1;
      ReplayIsNoOp(log, steps[..n]);
      if Occurs(steps[n].event, steps[..n]) {
        var j :| 0 <= j < n && steps[..n][j].event == steps[n].event;
        RunAbsorbs(log, steps[..n], j);
        assert Step(Run(log, steps[..n]), steps[n]) == Run(log, steps[..n]);
        assert Firsts(steps) == Firsts(steps[..n]);
      } else {
        assert Firsts(steps)[..|Firsts(steps)| - 1] == Firsts(steps[..n]);
      }
    }
  }

  // ---------------------------------------------------------------- one key, one group

  /** The entries of the ledger that belong to some of its events. */
  function Only(log: seq<Entry>, keys: set<Key>): seq<Entry> {
    if |log| == 0 then []
    else
      var n := |log| - 1;
      Only(log[..n], keys) + (if log[n].context.key in keys then [log[n]] else [])
  }

  lemma {:induction false} OnlyAppends(a: seq<Entry>, b: seq<Entry>, keys: set<Key>)
    ensures Only(a + b, keys) == Only(a, keys) + Only(b, keys)
  {
    if |b| == 0 {
      assert a + b == a;
    } else {
      OnlyAppends(a, b[..|b| - 1], keys);
      assert (a + b)[..|a + b| - 1] == a + b[..|b| - 1];
    }
  }

  lemma {:induction false} OnlyOfOneKey(g: seq<Entry>, key: Key, keys: set<Key>)
    requires forall x :: x in g ==> x.context.key == key
    ensures Only(g, keys) == if key in keys then g else []
  {
    if |g| > 0 {
      var n := |g| - 1;
      assert g[n] in g;
      OnlyOfOneKey(g[..n], key, keys);
      assert g == g[..n] + [g[n]];
    }
  }

  lemma PostedAppends(a: seq<Entry>, b: seq<Entry>, key: Key)
    ensures Posted(a + b, key) <==> Posted(a, key) || Posted(b, key)
  {
    if Posted(a, key) {
      var i :| 0 <= i < |a| && a[i].context.key == key;
      assert (a + b)[i] == a[i];
    } else if Posted(b, key) {
      var i :| 0 <= i < |b| && b[i].context.key == key;
      assert (a + b)[|a| + i] == b[i];
    }
  }

  lemma {:induction false} NotPostedMeansNone(log: seq<Entry>, key: Key)
    requires !Posted(log, key)
    ensures Only(log, {key}) == []
  {
    if |log| > 0 {
      var n := |log| - 1;
      assert log == log[..n] + [log[n]];
      PostedAppends(log[..n], [log[n]], key);
      assert [log[n]][0].context.key != key;
      NotPostedMeansNone(log[..n], key);
    }
  }

  lemma StepOnly(log: seq<Entry>, b: Booking, keys: set<Key>)
    ensures Only(Step(log, b), keys) == Only(log, keys) +
            (if Posted(log, KeyOf(b.event)) || KeyOf(b.event) !in keys then [] else Group(b.event, b.percent))
  {
    if !Posted(log, KeyOf(b.event)) {
      OnlyAppends(log, Group(b.event, b.percent), keys);
      OnlyOfOneKey(Group(b.event, b.percent), KeyOf(b.event), keys);
    }
  }

  /** One subject, one record: the same key always comes with the same figures. */
  predicate Consistent(steps: seq<Booking>) {
    forall i, j :: 0 <= i < |steps| && 0 <= j < |steps| && KeyOf(steps[i].event) == KeyOf(steps[j].event)
                   ==> steps[i].event == steps[j].event
  }

  lemma {:induction false} KeysComeFromSteps(steps: seq<Booking>, key: Key)
    requires Posted(Run([], steps), key)
    ensures exists j :: 0 <= j < |steps| && KeyOf(steps[j].event) == key
  {
    var n := |steps| - 1;
    var log, g := Run([], steps[..n]), Group(steps[n].event, steps[n].percent);
    PostedAppends(log, g, key);
    if Posted(log, key) {
      KeysComeFromSteps(steps[..n], key);
      var j :| 0 <= j < n && KeyOf(steps[..n][j].event) == key;
      assert KeyOf(steps[j].event) == key;
    } else {
      assert KeyOf(steps[n].event) == key;
    }
  }

  lemma ConsistentUpTo(steps: seq<Booking>, n: nat)
    requires Consistent(steps) && n <= |steps|
    ensures Consistent(steps[..n])
  {
  }

  // ---------------------------------------------------------------- what was really booked

  /** The booking that wrote a key's entries: the first under that key that had a figure to write. */
  function WroteAt(steps: seq<Booking>, key: Key): Option<Booking> {
    if |steps| == 0 then None
    else
      var n := |steps| - 1;
      var earlier := WroteAt(steps[..n], key);
      if earlier.Some? then earlier
      else if KeyOf(steps[n].event) == key && Group(steps[n].event, steps[n].percent) != [] then Some(steps[n])
      else None
  }

  function GroupOf(booked: Option<Booking>): seq<Entry> {
    match booked
    case None => []
    case Some(b) => Group(b.event, b.percent)
  }

  lemma {:induction false} WroteAtIsAStep(steps: seq<Booking>, key: Key)
    ensures var b := WroteAt(steps, key);
            b.Some? ==> b.value in steps && KeyOf(b.value.event) == key && GroupOf(b) != []
  {
    if |steps| > 0 {
      WroteAtIsAStep(steps[..|steps| - 1], key);
    }
  }

  /**
   * In the ledger of any run, whatever else it books and though the same key may come again with
   * other figures, the entries of a key are one group: that of the first booking under it with
   * anything to write. The key counts as posted exactly when there was one.
   */
  lemma {:induction false} OneGroupPerKey(steps: seq<Booking>, key: Key)
    ensures Only(Run([], steps), {key}) == GroupOf(WroteAt(steps, key))
    ensures Posted(Run([], steps), key) <==> WroteAt(steps, key).Some?
  {
    if |steps| > 0 {
      var n := |steps| - 1;
      OneGroupPerKey(steps[..n], key);
      OneGroupOneMore(Run([], steps[..n]), steps[n], key, WroteAt(steps[..n], key));
    }
  }

  lemma OneGroupOneMore(log: seq<Entry>, b: Booking, key: Key, wrote: Option<Booking>)
    requires Only(log, {key}) == GroupOf(wrote) && (Posted(log, key) <==> wrote.Some?)
    ensures var writes := KeyOf(b.event) == key && Group(b.event, b.percent) != [];
            var next := if wrote.Some? then wrote else if writes then Some(b) else None;
            Only(Step(log, b), {key}) == GroupOf(next) && (Posted(Step(log, b), key) <==> next.Some?)
  {
    StepOnly(log, b, {key});
    StepPosts(log, b, key);
    if wrote.None? {
      assert Only(log, {key}) + Group(b.event, b.percent) == Group(b.event, b.percent);
    }
  }

  lemma StepPosts(log: seq<Entry>, b: Booking, key: Key)
    ensures Posted(Step(log, b), key) <==> Posted(log, key) || (KeyOf(b.event) == key && Group(b.event, b.percent) != [])
  {
    var g := Group(b.event, b.percent);
    PostedAppends(log, g, key);
    if KeyOf(b.event) == key && g != [] {
      assert g[0].context.key == key;
    }
  }

  /** This event's figures are the ones its key is in the books with, or are too zero to be written. */
  predicate Booked(steps: seq<Booking>, e: Event) {
    match WroteAt(steps, KeyOf(e))
    case Some(b) => b.event == e
    case None => Occurs(e, steps)
  }

  /** The percent it was booked at; a group of zeros is the same at every percent. */
  function BookedAt(steps: seq<Booking>, e: Event): real {
    match WroteAt(steps, KeyOf(e))
    case Some(b) => b.percent
    case None => 0.0
  }

  lemma {:induction false} UnwrittenIsEmpty(steps: seq<Booking>, e: Event)
    requires WroteAt(steps, KeyOf(e)).None? && Occurs(e, steps)
    ensures forall p :: Group(e, p) == []
  {
    var j :| 0 <= j < |steps| && steps[j].event == e;
    RunAbsorbs([], steps, j);
    OneGroupPerKey(steps, KeyOf(e));
  }

  /** An event whose key never came with other figures is booked as itself. */
  lemma UncontestedIsBooked(steps: seq<Booking>, e: Event)
    requires Occurs(e, steps) && forall b :: b in steps && KeyOf(b.event) == KeyOf(e) ==> b.event == e
    ensures Booked(steps, e)
  {
    WroteAtIsAStep(steps, KeyOf(e));
  }

  /** The entries of a booked event's key are that event's group. */
  lemma BookedIsWritten(steps: seq<Booking>, e: Event)
    requires Booked(steps, e)
    ensures Only(Run([], steps), {KeyOf(e)}) == Group(e, BookedAt(steps, e))
  {
    OneGroupPerKey(steps, KeyOf(e));
    if WroteAt(steps, KeyOf(e)).None? {
      UnwrittenIsEmpty(steps, e);
    }
  }
}
