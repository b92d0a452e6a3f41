/**
 * Numbers people read: references (lib/server/refs.ts) and display uids (lib/server/uid.ts), both
 * drawn from database sequences and printed in decimal.
 */
module Refs {
  import opened Wrappers

  // ---------------------------------------------------------------- printing a number, and back

  function DigitChar(d: nat): char
    requires d < 10
  {
    ['0', '1', '2', '3', '4', '5', '6', '7', '8', '9'][d]
  }

  function DigitValue(c: char): nat {
    if '0' <= c <= '9' then c as nat - '0' as nat else 0
  }

  function Digits(n: nat): (s: string)
    ensures |s| > 0
  {
    if n < 10 then [DigitChar(n)] else Digits(n / 10) + [DigitChar(n % 10)]
  }

  function Parse(s: string): nat {
    if |s| == 0 then 0 else Parse(s[..|s| - 1]) * 10 + DigitValue(s[|s| - 1])
  }

  /** `padStart(3, "0")`. */
  function Pad3(s: string): string {
    if |s| == 1 then "00" + s else if |s| == 2 then "0" + s else s
  }

  lemma {:induction false} ParseOfDigits(n: nat)
    ensures Parse(Digits(n)) == n
  {
    if n >= 10 {
      ParseOfDigits(n / 10);
      assert Digits(n)[..|Digits(n)| - 1] == Digits(n / 10);
      assert DigitValue(DigitChar(n % 10)) == n % 10;
    } else {
      assert Digits(n)[..0] == [];
    }
  }

  lemma {:induction false} LeadingZero(s: string)
    ensures Parse("0" + s) == Parse(s)
  {
    if |s| == 0 {
      assert ("0" + s)[..0] == [];
    } else {
      LeadingZero(s[..|s| - 1]);
      assert ("0" + s)[..|s|] == "0" + s[..|s| - 1];
    }
  }

  /** The printed number can always be read back, so no two numbers print alike. */
  lemma ParseOfPadded(n: nat)
    ensures Parse(Pad3(Digits(n))) == n
  {
    var s := Digits(n);
    ParseOfDigits(n);
    LeadingZero(s);
    if |s| == 1 {
      LeadingZero("0" + s);
      assert Pad3(s) == "0" + ("0" + s);
    }
  }

  lemma {:induction false} DigitCount(n: nat)
    ensures n < 10 ==> |Digits(n)| == 1
    ensures 10 <= n < 100 ==> |Digits(n)| == 2
    ensures 100 <= n < 1000 ==> |Digits(n)| == 3
    ensures n >= 1000 ==> |Digits(n)| > 3
  {
    if n >= 10 {
      DigitCount(n / 10);
    }
  }

  lemma PadShape(d: string)
    requires |d| > 0
    ensures |Pad3(d)| == (if |d| < 3 then 3 else |d|)
    ensures Pad3(d)[|Pad3(d)| - |d|..] == d && forall i :: 0 <= i < |Pad3(d)| - |d| ==> Pad3(d)[i] == '0'
  {
  }

  /** Below a thousand the printed number has three digits; zeros come first and the number is not cut. */
  lemma PaddedToThree(n: nat)
    ensures |Pad3(Digits(n))| >= 3 && (|Pad3(Digits(n))| == 3 <==> n < 1000)
    ensures var s, d := Pad3(Digits(n)), Digits(n);
            |d| <= |s| && s[|s| - |d|..] == d && forall i :: 0 <= i < |s| - |d| ==> s[i] == '0'
  {
    DigitCount(n);
    PadShape(Digits(n));
  }

  lemma {:induction false} DigitsHaveNoDash(n: nat)
    ensures '-' !in Digits(n)
  {
    if n >= 10 {
      DigitsHaveNoDash(n / 10);
    }
  }

  // ---------------------------------------------------------------- references

  datatype RefKind = InvoiceRef | SendRef | SettlementRef | TrxRef

  function Prefix(kind: RefKind): string {
    match kind
    case InvoiceRef => "INV-"
    case SendRef => "SND-"
    case SettlementRef => "SET-"
    case TrxRef => "TRX-"
  }

  function Ref(kind: RefKind, n: nat): string { Prefix(kind) + Digits(n) }

  lemma RefIsInjective(k: RefKind, n: nat, l: RefKind, m: nat)
    requires Ref(k, n) == Ref(l, m)
    ensures k == l && n == m
  {
    assert Ref(k, n)[0] == Ref(l, m)[0] && Ref(k, n)[1] == Ref(l, m)[1];
    assert Prefix(k)[0] == Prefix(l)[0] && Prefix(k)[1] == Prefix(l)[1];
    assert k == l;
    assert Digits(n) == Ref(k, n)[4..] == Digits(m);
    ParseOfDigits(n);
    ParseOfDigits(m);
  }

  /** The next value of each of the four sequences. */
  datatype Counters = Counters(invoice: nat, send: nat, settlement: nat, trx: nat) {
    function Next(kind: RefKind): nat {
      match kind
      case InvoiceRef => invoice
      case SendRef => send
      case SettlementRef => settlement
      case TrxRef => trx
    }

    function Bump(kind: RefKind): Counters {
      match kind
      case InvoiceRef => this.(invoice := invoice + 1)
      case SendRef => this.(send := send + 1)
      case SettlementRef => this.(settlement := settlement + 1)
      case TrxRef => this.(trx := trx + 1)
    }

    predicate AtMost(later: Counters) {
      invoice <= later.invoice && send <= later.send && settlement <= later.settlement && trx <= later.trx
    }
  }

  /** Sequences are created starting one above the `start` the code lists. */
  const FRESH := Counters(1043, 2009, 1009, 3009)

  /** `nextRef`: one number from the kind's own sequence, one from the shared transaction sequence. */
  function DrawRef(c: Counters, kind: RefKind): Counters { c.Bump(kind).Bump(TrxRef) }

  /** The first reference of each kind, as people read it. */
  lemma FirstReferences()
    ensures Ref(InvoiceRef, FRESH.invoice) == "INV-1043" && Ref(SendRef, FRESH.send) == "SND-2009"
    ensures Ref(SettlementRef, FRESH.settlement) == "SET-1009" && Ref(TrxRef, FRESH.trx) == "TRX-3009"
  {
    assert Digits(1043) == "1043" && Digits(2009) == "2009";
    assert Digits(1009) == "1009" && Digits(3009) == "3009";
  }

  class Sequences {
    var counters: Counters

    constructor ()
      ensures counters == FRESH
    {
      counters := FRESH;
    }

    method NextRef(kind: RefKind) returns (ref: string, trxRef: string)
      requires kind != TrxRef
      modifies this
      ensures counters == DrawRef(old(counters), kind)
      ensures ref == Ref(kind, old(counters).Next(kind)) && trxRef == Ref(TrxRef, old(counters).trx)
      ensures old(counters).AtMost(counters) && ref != trxRef
    {
      var n := NextValue(kind);
      var t := NextValue(TrxRef);
      ref := Ref(kind, n);
      trxRef := Ref(TrxRef, t);
      if ref == trxRef {
        RefIsInjective(kind, n, TrxRef, t);
      }
    }

    method NextValue(kind: RefKind) returns (n: nat)
      modifies this
      ensures n == old(counters).Next(kind) && counters == old(counters).Bump(kind)
    {
      n := counters.Next(kind);
      counters := counters.Bump(kind);
    }
  }

  /** Every reference a run of `nextRef` calls handed out, of both sorts. */
  function Handed(c: Counters, kinds: seq<RefKind>): seq<string> {
    if |kinds| == 0 then []
    else
      var n := |kinds| - 1;
      var now := After(c, kinds[..n]);
      Handed(c, kinds[..n]) + [Ref(kinds[n], now.Next(kinds[n])), Ref(TrxRef, now.trx)]
  }

  function After(c: Counters, kinds: seq<RefKind>): Counters {
    if |kinds| == 0 then c else DrawRef(After(c, kinds[..|kinds| - 1]), kinds[|kinds| - 1])
  }

  predicate NoRepeats(s: seq<string>) {
    forall i, j :: 0 <= i < j < |s| ==> s[i] != s[j]
  }

  ghost predicate Behind(c: Counters, s: string) {
    exists k, n: nat :: s == Ref(k, n) && n < c.Next(k)
  }

  /** A number the sequences have not reached is on no reference handed out so far. */
  lemma NewRefIsNew(c: Counters, s: string, kind: RefKind)
    requires Behind(c, s)
    ensures s != Ref(kind, c.Next(kind))
  {
    var k, n: nat :| s == Ref(k, n) && n < c.Next(k);
    if s == Ref(kind, c.Next(kind)) {
      RefIsInjective(k, n, kind, c.Next(kind));
    }
  }

  lemma StaysBehind(c: Counters, s: string, kind: RefKind)
    requires Behind(c, s)
    ensures Behind(DrawRef(c, kind), s)
  {
    var k, n: nat :| s == Ref(k, n) && n < c.Next(k);
    assert n < DrawRef(c, kind).Next(k);
  }

  lemma DrawnIsBehind(c: Counters, kind: RefKind)
    requires kind != TrxRef
    ensures Behind(DrawRef(c, kind), Ref(kind, c.Next(kind))) && Behind(DrawRef(c, kind), Ref(TrxRef, c.trx))
    ensures Ref(kind, c.Next(kind)) != Ref(TrxRef, c.trx)
  {
    assert c.Next(kind) < DrawRef(c, kind).Next(kind) && c.trx < DrawRef(c, kind).Next(TrxRef);
    if Ref(kind, c.Next(kind)) == Ref(TrxRef, c.trx) {
      RefIsInjective(kind, c.Next(kind), TrxRef, c.trx);
    }
  }

  /** No reference is ever handed out twice, across all kinds and over any run. */
  lemma {:induction false} RefsNeverRepeat(c: Counters, kinds: seq<RefKind>)
    requires TrxRef !in kinds
    ensures NoRepeats(Handed(c, kinds))
    ensures forall s :: s in Handed(c, kinds) ==> Behind(After(c, kinds), s)
  {
    if |kinds| > 0 {
      var last := |kinds| - 1;
      RefsNeverRepeat(c, kinds[..last]);
      TwoMoreRefs(Handed(c, kinds[..last]), After(c, kinds[..last]), kinds[last]);
    }
  }

  lemma TwoMoreRefs(before: seq<string>, now: Counters, kind: RefKind)
    requires kind != TrxRef && NoRepeats(before) && forall s :: s in before ==> Behind(now, s)
    ensures var handed := before + [Ref(kind, now.Next(kind)), Ref(TrxRef, now.trx)];
            NoRepeats(handed) && forall s :: s in handed ==> Behind(DrawRef(now, kind), s)
  {
    forall s | s in before
      ensures s != Ref(kind, now.Next(kind)) && s != Ref(TrxRef, now.trx) && Behind(DrawRef(now, kind), s)
    {
      NewRefIsNew(now, s, kind);
      NewRefIsNew(now, s, TrxRef);
      StaysBehind(now, s, kind);
    }
    DrawnIsBehind(now, kind);
  }

  // ---------------------------------------------------------------- refund references

  /** `s.split(c)`. */
  function Split(s: string, c: char): (parts: seq<string>)
    ensures |parts| > 0
  {
    if |s| == 0 then [""]
    else
      var rest := Split(s[1..], c);
      if s[0] == c then [""] + rest else [[s[0]] + rest[0]] + rest[1..]
  }

  lemma {:induction false} SplitWithoutDash(s: string)
    requires '-' !in s
    ensures Split(s, '-') == [s]
  {
    if |s| > 0 {
      SplitWithoutDash(s[1..]);
      assert [s[0]] + s[1..] == s;
    }
  }

  lemma {:induction false} SplitAtDash(p: string, rest: string)
    requires '-' !in p
    ensures Split(p + "-" + rest, '-') == [p] + Split(rest, '-')
  {
    var s := p + "-" + rest;
    if |p| == 0 {
      assert s[1..] == rest;
    } else {
      SplitAtDash(p[1..], rest);
      assert s[1..] == p[1..] + "-" + rest;
      assert [p[0]] + p[1..] == p;
    }
  }

  /** `RFD-${ref.split("-")[1]}`, from a settlement reference drawn for the purpose. */
  function RefundRef(settlementRef: string): string {
    var parts := Split(settlementRef, '-');
    "RFD-" + (if |parts| > 1 then parts[1] else "undefined")
  }

  lemma RefundRefIsNumber(n: nat)
    ensures RefundRef(Ref(SettlementRef, n)) == "RFD-" + Digits(n)
  {
    DigitsHaveNoDash(n);
    SplitWithoutDash(Digits(n));
    SplitAtDash("SET", Digits(n));
    assert Ref(SettlementRef, n) == "SET" + "-" + Digits(n);
  }

  /** Different settlement numbers give different refund references. */
  lemma RefundRefIsInjective(n: nat, m: nat)
    requires RefundRef(Ref(SettlementRef, n)) == RefundRef(Ref(SettlementRef, m))
    ensures n == m
  {
    RefundRefIsNumber(n);
    RefundRefIsNumber(m);
    assert ("RFD-" + Digits(n))[4..] == Digits(n);
    assert ("RFD-" + Digits(m))[4..] == Digits(m);
    ParseOfDigits(n);
    ParseOfDigits(m);
  }
}

/** Display uids: the next number of the role's sequence that no account already carries. */
module Uids {
  import opened Wrappers
  import opened Refs

  datatype Role = IRANIAN | FOREIGN | ADMIN | BANK | SUPERADMIN

  function RolePrefix(role: Role): string {
    match role
    case IRANIAN => "IR"
    case FOREIGN => "FOR"
    case ADMIN => "ADM"
    case BANK => "BNK"
    case SUPERADMIN => "SYS"
  }

  function Uid(role: Role, n: nat): string { RolePrefix(role) + "-" + Pad3(Digits(n)) }

  /** The printed uid determines both its role and its number. */
  lemma UidIsInjective(r: Role, n: nat, q: Role, m: nat)
    requires Uid(r, n) == Uid(q, m)
    ensures r == q && n == m
  {
    assert Uid(r, n)[0] == RolePrefix(r)[0] && Uid(q, m)[0] == RolePrefix(q)[0];
    assert r == q;
    var k := |RolePrefix(r)| + 1;
    assert Pad3(Digits(n)) == Uid(r, n)[k..] == Pad3(Digits(m));
    ParseOfPadded(n);
    ParseOfPadded(m);
  }

  const MAX_ATTEMPTS: nat := 1000

  /** What the bounded loop finds from `n` on, and where it leaves the sequence. */
  function Search(role: Role, n: nat, end: nat, taken: set<string>): (Option<nat>, nat)
    decreases end - n
  {
    if n >= end then (None, n)
    else if Uid(role, n) !in taken then (Some(n), n + 1)
    else Search(role, n + 1, end, taken)
  }

  class UidAllocator {
    /** Postgres sequences, created on first use starting at 1. */
    var sequences: map<Role, nat>
    /** The uids on existing accounts. */
    var users: set<string>

    constructor (users: set<string>)
      ensures sequences == map[] && this.users == users
    {
      sequences := map[];
      this.users := users;
    }

    method NextUid(role: Role) returns (uid: Option<string>)
      modifies this`sequences
      ensures var start := NextOf(old(sequences), role);
              var (found, next) := Search(role, start, start + MAX_ATTEMPTS, users);
              && sequences == old(sequences)[role := next]
              && uid == (if found.Some? then Some(Uid(role, found.value)) else None)
      ensures uid.Some? ==> uid.value !in users
      ensures |users| < MAX_ATTEMPTS ==> uid.Some?
    {
      ghost var start := NextOf(sequences, role);
      ghost var end := start + MAX_ATTEMPTS;
      var attempt := 0;
      while attempt < MAX_ATTEMPTS
        invariant 0 <= attempt <= MAX_ATTEMPTS
        invariant NextOf(sequences, role) == start + attempt
        invariant attempt > 0 ==> sequences == old(sequences)[role := start + attempt]
        invariant attempt == 0 ==> sequences == old(sequences)
        invariant Search(role, start, end, users) == Search(role, start + attempt, end, users)
      {
        var drawn := NextValue(role);
        UpdateTwice(old(sequences), role, drawn, drawn + 1);
        var candidate := Uid(role, drawn);
        if candidate !in users {
          return Some(candidate);
        }
        attempt := attempt + 1;
      }
      GivingUpNeedsTaken(role, start, end, users);
      uid := None;
    }

    /** Creates the role's sequence if there is none yet, and draws from it. */
    method NextValue(role: Role) returns (n: nat)
      modifies this`sequences
      ensures n == NextOf(old(sequences), role) && sequences == old(sequences)[role := n + 1]
    {
      n := NextOf(sequences, role);
      sequences := sequences[role := n + 1];
    }
  }

  lemma UpdateTwice(m: map<Role, nat>, role: Role, a: nat, b: nat)
    ensures m[role := a][role := b] == m[role := b]
  {
  }

  function NextOf(sequences: map<Role, nat>, role: Role): nat {
    if role in sequences then sequences[role] else 1
  }

  lemma {:induction false} SearchIsSound(role: Role, n: nat, end: nat, taken: set<string>)
    requires n <= end
    ensures var (found, next) := Search(role, n, end, taken);
            && n <= next <= end
            && (found.Some? ==> Uid(role, found.value) !in taken && n <= found.value && next == found.value + 1)
            && (found.None? ==> next == end)
    decreases end - n
  {
    if n < end && Uid(role, n) in taken {
      SearchIsSound(role, n + 1, end, taken);
    }
  }

  /** The search passes over taken numbers only. */
  lemma {:induction false} SkippedAreTaken(role: Role, n: nat, end: nat, taken: set<string>, i: nat)
    requires n <= i < end
    requires var (found, _) := Search(role, n, end, taken); found.None? || i < found.value
    ensures Uid(role, i) in taken
    decreases end - n
  {
    if n < i {
      SkippedAreTaken(role, n + 1, end, taken, i);
    }
  }

  /** Giving up takes as many different taken uids as there were attempts. */
  lemma {:induction false} GivingUpNeedsTaken(role: Role, n: nat, end: nat, taken: set<string>)
    requires n <= end
    ensures Search(role, n, end, taken).0.None? ==> |taken| >= end - n
    decreases end - n
  {
    if n < end && Search(role, n, end, taken).0.None? {
      var rest := taken - {Uid(role, n)};
      RemovingLowerUid(role, n, n + 1, end, taken);
      GivingUpNeedsTaken(role, n + 1, end, rest);
      assert |rest| == |taken| - 1;
    }
  }

  lemma {:induction false} RemovingLowerUid(role: Role, low: nat, n: nat, end: nat, taken: set<string>)
    requires low < n
    ensures Search(role, n, end, taken - {Uid(role, low)}) == Search(role, n, end, taken)
    decreases end - n
  {
    if n < end {
      if Uid(role, n) == Uid(role, low) {
        UidIsInjective(role, n, role, low);
      }
      RemovingLowerUid(role, low, n + 1, end, taken);
    }
  }

  // ---------------------------------------------------------------- runs

  /** A sign-up asking for a uid, or the accounts changing by any other means. */
  datatype Action = Ask(role: Role) | Accounts(users: set<string>)

  datatype State = State(sequences: map<Role, nat>, users: set<string>, issued: seq<string>)

  function Act(s: State, a: Action): State {
    match a
    case Accounts(users) => s.(users := users)
    case Ask(role) =>
      var start := NextOf(s.sequences, role);
      var (found, next) := Search(role, start, start + MAX_ATTEMPTS, s.users);
      State(s.sequences[role := next], s.users,
            if found.Some? then s.issued + [Uid(role, found.value)] else s.issued)
  }

  function Run(users: set<string>, actions: seq<Action>): State {
    if |actions| == 0 then State(map[], users, [])
    else Act(Run(users, actions[..|actions| - 1]), actions[|actions| - 1])
  }

  ghost predicate Below(s: State, uid: string) {
    exists r, n: nat :: uid == Uid(r, n) && n < NextOf(s.sequences, r)
  }

  /**
   * Over any run, starting from any accounts and however the accounts change in between, no uid is
   * ever issued twice, for one role or across roles.
   */
  lemma {:induction false} UidsNeverRepeat(users: set<string>, actions: seq<Action>)
    ensures var s := Run(users, actions);
            && NoRepeats(s.issued)
            && forall uid :: uid in s.issued ==> Below(s, uid)
  {
    if |actions| > 0 {
      var n := |actions| - 1;
      var s, a := Run(users, actions[..n]), actions[n];
      UidsNeverRepeat(users, actions[..n]);
      if a.Ask? {
        AskKeepsDistinct(s, a.role);
      } else {
        forall uid | uid in s.issued
          ensures Below(Act(s, a), uid)
        {
          var r, k: nat :| uid == Uid(r, k) && k < NextOf(s.sequences, r);
          assert k < NextOf(Act(s, a).sequences, r);
        }
      }
    }
  }

  lemma AskKeepsDistinct(s: State, role: Role)
    requires NoRepeats(s.issued) && forall uid :: uid in s.issued ==> Below(s, uid)
    ensures var t := Act(s, Ask(role));
            NoRepeats(t.issued) && forall uid :: uid in t.issued ==> Below(t, uid)
  {
    var start := NextOf(s.sequences, role);
    var (found, next) := Search(role, start, start + MAX_ATTEMPTS, s.users);
    var t := Act(s, Ask(role));
    SearchIsSound(role, start, start + MAX_ATTEMPTS, s.users);
    forall uid | uid in s.issued
      ensures Below(t, uid)
      ensures found.Some? ==> uid != Uid(role, found.value)
    {
      EarlierUidStays(s, t, uid, role, start);
    }
    if found.Some? {
      assert Below(t, Uid(role, found.value)) by { assert found.value < NextOf(t.sequences, role); }
    }
  }

  /** What one request issues is free, and it is left without only when a thousand accounts stand in its way. */
  lemma AskIssuesFree(s: State, role: Role)
    ensures var t := Act(s, Ask(role));
            && |s.issued| <= |t.issued| <= |s.issued| + 1 && t.issued[..|s.issued|] == s.issued
            && (|t.issued| > |s.issued| ==> t.issued[|s.issued|] !in s.users)
            && (|s.users| < MAX_ATTEMPTS ==> |t.issued| == |s.issued| + 1)
  {
    var start := NextOf(s.sequences, role);
    SearchIsSound(role, start, start + MAX_ATTEMPTS, s.users);
    GivingUpNeedsTaken(role, start, start + MAX_ATTEMPTS, s.users);
  }

  /**
   * Every uid issued in a run was on no account at the moment it was issued: the k-th one came from
   * a request that found the accounts without it.
   */
  lemma {:induction false} FreeWhenIssued(users: set<string>, actions: seq<Action>, k: nat)
    requires k < |Run(users, actions).issued|
    ensures exists n :: 0 <= n < |actions| && IssuesFree(users, actions, n, k)
  {
    var last := |actions| - 1;
    var s := Run(users, actions[..last]);
    if actions[last].Ask? {
      AskIssuesFree(s, actions[last].role);
    }
    if k < |s.issued| {
      FreeWhenIssued(users, actions[..last], k);
      var n :| 0 <= n < last && IssuesFree(users, actions[..last], n, k);
      assert actions[..last][..n] == actions[..n];
      assert IssuesFree(users, actions, n, k);
    } else {
      assert IssuesFree(users, actions, last, k);
    }
  }

  /** The n-th action asked, nothing beyond the k-th uid had been issued, and the k-th was on no account. */
  ghost predicate IssuesFree(users: set<string>, actions: seq<Action>, n: nat, k: nat)
    requires n < |actions| && k < |Run(users, actions).issued|
  {
    actions[n].Ask? && |Run(users, actions[..n]).issued| == k
    && Run(users, actions).issued[k] !in Run(users, actions[..n]).users
  }

  lemma EarlierUidStays(s: State, t: State, uid: string, role: Role, start: nat)
    requires Below(s, uid) && start == NextOf(s.sequences, role)
    requires forall r :: NextOf(s.sequences, r) <= NextOf(t.sequences, r)
    ensures Below(t, uid)
    ensures forall n: nat :: n >= start ==> uid != Uid(role, n)
  {
    var r, k: nat :| uid == Uid(r, k) && k < NextOf(s.sequences, r);
    assert k < NextOf(t.sequences, r);
    forall n: nat | n >= start
      ensures uid != Uid(role, n)
    {
      if uid == Uid(role, n) {
        UidIsInjective(r, k, role, n);
      }
    }
  }
}
