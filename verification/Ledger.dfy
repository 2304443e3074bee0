/** The commons ledger: idempotent settlement, balances that can be rebuilt from an append-only
    ledger, and capped budgets. Each SQL transaction is one step. */
module Ledger {
  import opened Options
  import opened PeerKeys
  import opened Pricing

  const GRANT: Int64 := 1000 * CREDIT_SCALE
  const MAX_CREDIT: Int64 := 9_200_000 * CREDIT_SCALE
  const STANDARD := 2

  /** A transaction ID is a text; `AnnounceText` says which one an announce gets. */
  type Txn = seq<Byte>

  datatype Account = Account(balance: Int64, priority: int)

  datatype Entry = Entry(txn: Txn, account: Word32, torrent: Word32, charge: Int64, before: Int64, after: Int64)

  /** `torrent` is None for a cap over all torrents, `deadline` None for one that does not expire. */
  datatype Budget = Budget(user: Word32, torrent: Option<Word32>, cap: int, consumed: int, deadline: Option<int>)

  datatype Store = Store(accounts: map<Word32, Account>, ledger: seq<Entry>, budgets: seq<Budget>)

  // ----- Specification -----

  predicate Settled(ledger: seq<Entry>, txn: Txn) {
    exists i :: 0 <= i < |ledger| && ledger[i].txn == txn
  }

  function AccountOf(s: Store, a: Word32): Account {
    if a in s.accounts then s.accounts[a] else Account(GRANT, STANDARD)
  }

  predicate Absorbs(b: Budget, user: Word32, torrent: Word32, charge: int) {
    b.user == user && b.torrent == Some(torrent) && b.cap - b.consumed >= charge
  }

  function Charged(b: Budget, user: Word32, torrent: Word32, charge: int): Budget {
    if Absorbs(b, user, torrent, charge) then b.(consumed := b.consumed + charge) else b
  }

  function ChargedAll(bs: seq<Budget>, user: Word32, torrent: Word32, charge: int): (r: seq<Budget>)
    ensures |r| == |bs|
    ensures forall i :: 0 <= i < |bs| ==> r[i] == Charged(bs[i], user, torrent, charge)
  {
    if bs == [] then [] else ChargedAll(bs[..|bs| - 1], user, torrent, charge) + [Charged(bs[|bs| - 1], user, torrent, charge)]
  }

  function AfterSettle(s: Store, a: Word32, torrent: Word32, charge: Int64, txn: Txn): Store {
    var acct := AccountOf(s, a);
    if Settled(s.ledger, txn) then s.(accounts := s.accounts[a := acct])
    else
      var after := Wrap64(acct.balance - charge);
      Store(
        s.accounts[a := acct.(balance := after)],
        s.ledger + [Entry(txn, a, torrent, charge, acct.balance, after)],
        if charge > 0 && torrent > 0 then ChargedAll(s.budgets, a, torrent, charge) else s.budgets)
  }

  function WithPriority(loaded: Option<Account>, pc: int): Account {
    match loaded
    case None => Account(GRANT, pc)
    case Some(acct) => acct.(priority := pc)
  }

  function Load(s: Store, u: Word32): Option<Account> {
    if u in s.accounts then Some(s.accounts[u]) else None
  }

  predicate ValidClass(pc: int) { 0 <= pc <= 3 }

  function Scope(torrent: Word32): Option<Word32> {
    if torrent == 0 then None else Some(torrent)
  }

  function OthersOf(bs: seq<Budget>, user: Word32, scope: Option<Word32>): (r: seq<Budget>)
    ensures forall b :: b in r <==> b in bs && !(b.user == user && b.torrent == scope)
  {
    if bs == [] then []
    else
      var front, b := OthersOf(bs[..|bs| - 1], user, scope), bs[|bs| - 1];
      if b.user == user && b.torrent == scope then front else front + [b]
  }

  datatype Op =
    | Settling(account: Word32, torrent: Word32, charge: Int64, txn: Txn)
    | SetPriority(user: Word32, pc: int)
    | DropBudget(user: Word32, torrent: Word32)
    | InsertBudget(user: Word32, torrent: Word32, cap: Int64)

  function Apply(s: Store, op: Op): Store {
    match op
    case Settling(a, torrent, charge, txn) => AfterSettle(s, a, torrent, charge, txn)
    case SetPriority(u, pc) =>
      if ValidClass(pc) then s.(accounts := s.accounts[u := WithPriority(Load(s, u), pc)]) else s
    case DropBudget(u, torrent) => s.(budgets := OthersOf(s.budgets, u, Scope(torrent)))
    case InsertBudget(u, torrent, cap) => s.(budgets := s.budgets + [Budget(u, Scope(torrent), cap, 0, None)])
  }

  function Run(s: Store, ops: seq<Op>): Store {
    if ops == [] then s else Apply(Run(s, ops[..|ops| - 1]), ops[|ops| - 1])
  }

  // ----- Reconstructing balances -----

  function ChargesOf(ledger: seq<Entry>, a: Word32): int {
    if ledger == [] then 0
    else
      var e := ledger[|ledger| - 1];
      ChargesOf(ledger[..|ledger| - 1], a) + if e.account == a then e.charge else 0
  }

  /** The balance the ledger leaves account `a` with: the `after` of its last entry. */
  function Closing(ledger: seq<Entry>, a: Word32): Int64 {
    if ledger == [] then GRANT
    else
      var e := ledger[|ledger| - 1];
      if e.account == a then e.after else Closing(ledger[..|ledger| - 1], a)
  }

  /** Every entry starts from the balance the previous entry of its account ended with. */
  ghost predicate Chained(ledger: seq<Entry>) {
    forall i :: 0 <= i < |ledger| ==>
      var e := ledger[i];
      e.before == Closing(ledger[..i], e.account) && e.after == Wrap64(e.before - e.charge)
  }

  ghost predicate UniqueTxns(ledger: seq<Entry>) {
    forall i, j :: 0 <= i < j < |ledger| ==> ledger[i].txn != ledger[j].txn
  }

  ghost predicate WithinCap(bs: seq<Budget>) {
    forall i :: 0 <= i < |bs| ==> 0 <= bs[i].consumed <= bs[i].cap
  }

  ghost predicate Reconciles(s: Store) {
    && (forall a :: a in s.accounts ==> s.accounts[a].balance == Closing(s.ledger, a))
    && (forall i :: 0 <= i < |s.ledger| ==> s.ledger[i].account in s.accounts)
  }

  ghost predicate Valid(s: Store) {
    Reconciles(s) && Chained(s.ledger) && UniqueTxns(s.ledger)
  }

  lemma Wrap64Twice(x: int, d: int)
    ensures Wrap64(Wrap64(x) - d) == Wrap64(x - d)
  {
  }

  lemma PrefixChained(ledger: seq<Entry>, n: nat)
    requires Chained(ledger) && n <= |ledger|
    ensures Chained(ledger[..n])
  {
    assert forall i :: 0 <= i < n ==> ledger[..n][i] == ledger[i] && ledger[..n][..i] == ledger[..i];
  }

  /** A chained ledger closes at the starting grant minus the sum of the charges, mod 2^64. */
  lemma {:induction false} ClosingIsGrantMinusCharges(ledger: seq<Entry>, a: Word32)
    requires Chained(ledger)
    ensures Closing(ledger, a) == Wrap64(GRANT - ChargesOf(ledger, a))
  {
    hide Wrap64;
    if ledger != [] {
      var n := |ledger| - 1;
      var front, e := ledger[..n], ledger[n];
      PrefixChained(ledger, n);
      assert e.before == Closing(front, e.account) && e.after == Wrap64(e.before - e.charge);
      hide Chained;
      ClosingIsGrantMinusCharges(front, a);
      if e.account == a {
        Wrap64Twice(GRANT - ChargesOf(front, a), e.charge);
      }
    }
  }

  lemma ClosingAppend(ledger: seq<Entry>, e: Entry, a: Word32)
    ensures Closing(ledger + [e], a) == if e.account == a then e.after else Closing(ledger, a)
  {
    assert (ledger + [e])[..|ledger|] == ledger;
  }

  lemma {:induction false} NoEntriesCloseAtGrant(ledger: seq<Entry>, a: Word32)
    requires forall i :: 0 <= i < |ledger| ==> ledger[i].account != a
    ensures Closing(ledger, a) == GRANT
  {
    if ledger != [] {
      NoEntriesCloseAtGrant(ledger[..|ledger| - 1], a);
    }
  }

  lemma AppendChained(ledger: seq<Entry>, e: Entry)
    requires Chained(ledger) && e.before == Closing(ledger, e.account) && e.after == Wrap64(e.before - e.charge)
    ensures Chained(ledger + [e])
  {
    hide Wrap64, Closing;
    var ledger' := ledger + [e];
    forall i | 0 <= i < |ledger'|
      ensures ledger'[i].before == Closing(ledger'[..i], ledger'[i].account)
      ensures ledger'[i].after == Wrap64(ledger'[i].before - ledger'[i].charge)
    {
      assert ledger'[..i] == ledger[..i];
      if i < |ledger| {
        assert ledger'[i] == ledger[i];
      } else {
        assert ledger[..i] == ledger;
      }
    }
  }

  lemma BalanceCloses(s: Store, a: Word32)
    requires Reconciles(s)
    ensures AccountOf(s, a).balance == Closing(s.ledger, a)
  {
    if a !in s.accounts {
      NoEntriesCloseAtGrant(s.ledger, a);
    }
  }

  lemma SettleValid(s: Store, a: Word32, torrent: Word32, charge: Int64, txn: Txn)
    requires Valid(s)
    ensures Valid(AfterSettle(s, a, torrent, charge, txn))
  {
    hide Wrap64, Closing, Chained;
    BalanceCloses(s, a);
    var s' := AfterSettle(s, a, torrent, charge, txn);
    if !Settled(s.ledger, txn) {
      var e := s'.ledger[|s.ledger|];
      AppendChained(s.ledger, e);
      forall b | b in s'.accounts ensures s'.accounts[b].balance == Closing(s'.ledger, b) {
        ClosingAppend(s.ledger, e, b);
      }
    }
  }

  lemma StepValid(s: Store, op: Op)
    requires Valid(s)
    ensures Valid(Apply(s, op))
  {
    match op
    case Settling(a, torrent, charge, txn) => SettleValid(s, a, torrent, charge, txn);
    case SetPriority(u, pc) => BalanceCloses(s, u);
    case DropBudget(_, _) =>
    case InsertBudget(_, _, _) =>
  }

  lemma {:induction false} RunValid(s: Store, ops: seq<Op>)
    requires Valid(s)
    ensures Valid(Run(s, ops))
  {
    if ops != [] {
      hide Valid;
      RunValid(s, ops[..|ops| - 1]);
      StepValid(Run(s, ops[..|ops| - 1]), ops[|ops| - 1]);
    }
  }

  /** Over every run of settlements and setters, each balance is the starting grant minus the sum of
      the account's ledger charges (mod 2^64), and consecutive entries of an account chain. */
  lemma BalancesReconstruct(s: Store, ops: seq<Op>, a: Word32)
    requires Valid(s)
    ensures Chained(Run(s, ops).ledger) && UniqueTxns(Run(s, ops).ledger)
    ensures AccountOf(Run(s, ops), a).balance == Wrap64(GRANT - ChargesOf(Run(s, ops).ledger, a))
  {
    hide Wrap64, Run;
    RunValid(s, ops);
    BalanceCloses(Run(s, ops), a);
    ClosingIsGrantMinusCharges(Run(s, ops).ledger, a);
  }

  // ----- Idempotence -----

  lemma StepAppends(s: Store, op: Op)
    ensures s.ledger <= Apply(s, op).ledger && s.accounts.Keys <= Apply(s, op).accounts.Keys
  {
  }

  lemma {:induction false} RunAppends(s: Store, ops: seq<Op>)
    ensures s.ledger <= Run(s, ops).ledger && s.accounts.Keys <= Run(s, ops).accounts.Keys
  {
    if ops != [] {
      RunAppends(s, ops[..|ops| - 1]);
      StepAppends(Run(s, ops[..|ops| - 1]), ops[|ops| - 1]);
    }
  }

  /** A settled transaction replayed at any later point of any run changes nothing at all. */
  lemma ReplayChangesNothing(s: Store, op: Op, ops: seq<Op>)
    requires op.Settling?
    ensures Apply(Run(Apply(s, op), ops), op) == Run(Apply(s, op), ops)
  {
    var s1 := Apply(s, op);
    var s2 := Run(s1, ops);
    RunAppends(s1, ops);
    assert Settled(s1.ledger, op.txn) by {
      if !Settled(s.ledger, op.txn) {
        assert s1.ledger[|s.ledger|].txn == op.txn;
      }
    }
    var i :| 0 <= i < |s1.ledger| && s1.ledger[i].txn == op.txn;
    assert s2.ledger[i].txn == op.txn;
    assert s2.accounts[op.account := s2.accounts[op.account]] == s2.accounts;
  }

  /** A used transaction ID under another account settles nothing either; it may only open the
      account. */
  lemma ReusedIdSettlesNothing(s: Store, op: Op)
    requires op.Settling? && Settled(s.ledger, op.txn)
    ensures var e := Apply(s, op);
      && e.ledger == s.ledger && e.budgets == s.budgets
      && (forall a :: a in s.accounts ==> e.accounts[a] == s.accounts[a])
      && e.accounts.Keys == s.accounts.Keys + {op.account}
  {
  }

  // ----- Budgets -----

  lemma StepWithinCap(s: Store, op: Op)
    requires WithinCap(s.budgets)
    ensures WithinCap(Apply(s, op).budgets) <==> (op.InsertBudget? ==> op.cap >= 0)
  {
    var bs := Apply(s, op).budgets;
    if op.InsertBudget? {
      assert bs[|s.budgets|].cap == op.cap;
      assert forall i :: 0 <= i < |s.budgets| ==> bs[i] == s.budgets[i];
    } else if op.DropBudget? {
      assert forall i :: 0 <= i < |bs| ==> bs[i] in s.budgets;
    }
  }

  /** No budget is ever charged beyond its cap, over every run that sets no negative cap, with the two
      statements of setting a budget apart. */
  lemma {:induction false} BudgetsStayWithinCap(s: Store, ops: seq<Op>)
    requires WithinCap(s.budgets)
    requires forall i :: 0 <= i < |ops| && ops[i].InsertBudget? ==> ops[i].cap >= 0
    ensures WithinCap(Run(s, ops).budgets)
  {
    if ops != [] {
      BudgetsStayWithinCap(s, ops[..|ops| - 1]);
      StepWithinCap(Run(s, ops[..|ops| - 1]), ops[|ops| - 1]);
    }
  }

  // ----- The two statements of SetUserBudget, and what caps absorb -----

  /** The rows of one scope, in table order. */
  function ScopeRows(bs: seq<Budget>, u: Word32, scope: Option<Word32>): seq<Budget> {
    if bs == [] then []
    else
      var rows, b := ScopeRows(bs[..|bs| - 1], u, scope), bs[|bs| - 1];
      if b.user == u && b.torrent == scope then rows + [b] else rows
  }

  lemma {:induction false} NoRows(bs: seq<Budget>, u: Word32, scope: Option<Word32>)
    requires forall b :: b in bs ==> !(b.user == u && b.torrent == scope)
    ensures ScopeRows(bs, u, scope) == []
  {
    if bs != [] {
      NoRows(bs[..|bs| - 1], u, scope);
    }
  }

  lemma RowsAppend(bs: seq<Budget>, b: Budget, u: Word32, scope: Option<Word32>)
    ensures ScopeRows(bs + [b], u, scope) ==
            ScopeRows(bs, u, scope) + if b.user == u && b.torrent == scope then [b] else []
  {
    assert (bs + [b])[..|bs|] == bs;
  }

  lemma ChargedAppend(bs: seq<Budget>, b: Budget, v: Word32, torrent: Word32, charge: int)
    ensures ChargedAll(bs + [b], v, torrent, charge) == ChargedAll(bs, v, torrent, charge) + [Charged(b, v, torrent, charge)]
  {
    assert (bs + [b])[..|bs|] == bs;
  }

  lemma {:induction false} RowsCharged(bs: seq<Budget>, v: Word32, torrent: Word32, charge: int,
                                       u: Word32, scope: Option<Word32>)
    ensures ScopeRows(ChargedAll(bs, v, torrent, charge), u, scope)
         == ChargedAll(ScopeRows(bs, u, scope), v, torrent, charge)
  {
    if bs != [] {
      var f, b := bs[..|bs| - 1], bs[|bs| - 1];
      RowsCharged(f, v, torrent, charge, u, scope);
      RowsAppend(ChargedAll(f, v, torrent, charge), Charged(b, v, torrent, charge), u, scope);
      ChargedAppend(ScopeRows(f, u, scope), b, v, torrent, charge);
    }
  }

  lemma {:induction false} OthersRows(bs: seq<Budget>, v: Word32, other: Option<Word32>, u: Word32, scope: Option<Word32>)
    ensures ScopeRows(OthersOf(bs, v, other), u, scope) == if v == u && other == scope then [] else ScopeRows(bs, u, scope)
  {
    if v == u && other == scope {
      NoRows(OthersOf(bs, v, other), u, scope);
    } else if bs != [] {
      var f, b := bs[..|bs| - 1], bs[|bs| - 1];
      OthersRows(f, v, other, u, scope);
      RowsAppend(OthersOf(f, v, other), b, u, scope);
    }
  }

  /** A cap, and how long the ledger was when it was set. */
  datatype Cap = Cap(cap: int, from: nat)

  /** The caps inserted for the scope since its last delete, over a run that starts with none. */
  function CapsSince(s: Store, ops: seq<Op>, u: Word32, torrent: Word32): seq<Cap> {
    if ops == [] then []
    else
      var caps, op := CapsSince(s, ops[..|ops| - 1], u, torrent), ops[|ops| - 1];
      match op
      case InsertBudget(v, tor, cap) =>
        if v == u && Scope(tor) == Scope(torrent) then caps + [Cap(cap, |Run(s, ops[..|ops| - 1]).ledger|)] else caps
      case DropBudget(v, tor) => if v == u && Scope(tor) == Scope(torrent) then [] else caps
      case _ => caps
  }

  /** The positive charges of this user and torrent entered since the cap was set, as far as they fitted, one after
      the other. */
  function Absorbed(ledger: seq<Entry>, c: Cap, u: Word32, torrent: Word32): int {
    if |ledger| <= c.from then 0
    else
      var sum, e := Absorbed(ledger[..|ledger| - 1], c, u, torrent), ledger[|ledger| - 1];
      if e.account == u && e.torrent == torrent > 0 && e.charge > 0 && sum + e.charge <= c.cap then sum + e.charge else sum
  }

  function RowOf(ledger: seq<Entry>, c: Cap, u: Word32, torrent: Word32): Budget {
    Budget(u, Scope(torrent), c.cap, Absorbed(ledger, c, u, torrent), None)
  }

  function RowsFor(ledger: seq<Entry>, caps: seq<Cap>, u: Word32, torrent: Word32): seq<Budget> {
    seq(|caps|, i requires 0 <= i < |caps| => RowOf(ledger, caps[i], u, torrent))
  }

  ghost predicate SetBefore(caps: seq<Cap>, ledger: seq<Entry>) {
    forall i :: 0 <= i < |caps| ==> caps[i].from <= |ledger|
  }

  lemma RowCharged(ledger: seq<Entry>, e: Entry, c: Cap, u: Word32, torrent: Word32)
    requires c.from <= |ledger|
    ensures RowOf(ledger + [e], c, u, torrent) ==
            if e.charge > 0 && e.torrent > 0 then Charged(RowOf(ledger, c, u, torrent), e.account, e.torrent, e.charge)
            else RowOf(ledger, c, u, torrent)
  {
    assert (ledger + [e])[..|ledger|] == ledger;
  }

  lemma RowsForCharged(ledger: seq<Entry>, e: Entry, caps: seq<Cap>, u: Word32, torrent: Word32)
    requires SetBefore(caps, ledger)
    ensures RowsFor(ledger + [e], caps, u, torrent) ==
            if e.charge > 0 && e.torrent > 0 then ChargedAll(RowsFor(ledger, caps, u, torrent), e.account, e.torrent, e.charge)
            else RowsFor(ledger, caps, u, torrent)
  {
    forall i | 0 <= i < |caps|
      ensures RowOf(ledger + [e], caps[i], u, torrent) ==
              if e.charge > 0 && e.torrent > 0 then Charged(RowOf(ledger, caps[i], u, torrent), e.account, e.torrent, e.charge)
              else RowOf(ledger, caps[i], u, torrent)
    {
      RowCharged(ledger, e, caps[i], u, torrent);
    }
    hide RowOf, Charged;
  }

  lemma SettleRows(s: Store, a: Word32, tor: Word32, charge: Int64, txn: Txn, caps: seq<Cap>, u: Word32, torrent: Word32)
    requires SetBefore(caps, s.ledger) && ScopeRows(s.budgets, u, Scope(torrent)) == RowsFor(s.ledger, caps, u, torrent)
    ensures var e := AfterSettle(s, a, tor, charge, txn);
      SetBefore(caps, e.ledger) && ScopeRows(e.budgets, u, Scope(torrent)) == RowsFor(e.ledger, caps, u, torrent)
  {
    if !Settled(s.ledger, txn) {
      var e := AfterSettle(s, a, tor, charge, txn).ledger[|s.ledger|];
      RowsForCharged(s.ledger, e, caps, u, torrent);
      RowsCharged(s.budgets, a, tor, charge, u, Scope(torrent));
      hide RowsFor, ScopeRows, ChargedAll, Settled;
    }
  }

  /** Setting a budget is a delete and an insert. Whatever runs in between and after, the rows of a scope are the caps
      inserted since its last delete, each with exactly the charges consumed that were entered since and fitted. */
  lemma {:induction false} RowsAreInserts(s: Store, u: Word32, torrent: Word32, ops: seq<Op>)
    requires ScopeRows(s.budgets, u, Scope(torrent)) == []
    ensures var e, caps := Run(s, ops), CapsSince(s, ops, u, torrent);
      SetBefore(caps, e.ledger) && ScopeRows(e.budgets, u, Scope(torrent)) == RowsFor(e.ledger, caps, u, torrent)
  {
    var scope := Scope(torrent);
    if ops != [] {
      RowsAreInserts(s, u, torrent, ops[..|ops| - 1]);
      var mid, op, caps := Run(s, ops[..|ops| - 1]), ops[|ops| - 1], CapsSince(s, ops[..|ops| - 1], u, torrent);
      hide Run;
      match op
      case Settling(a, tor, charge, txn) => SettleRows(mid, a, tor, charge, txn, caps, u, torrent);
      case SetPriority(_, _) =>
      case DropBudget(v, tor) => OthersRows(mid.budgets, v, Scope(tor), u, scope);
      case InsertBudget(v, tor, cap) =>
        RowsAppend(mid.budgets, Budget(v, Scope(tor), cap, 0, None), u, scope);
        NothingYet(mid.ledger, Cap(cap, |mid.ledger|), caps, u, torrent);
        hide RowsFor, ScopeRows;
    }
  }

  lemma NothingYet(ledger: seq<Entry>, c: Cap, caps: seq<Cap>, u: Word32, torrent: Word32)
    requires c.from == |ledger|
    ensures RowsFor(ledger, caps + [c], u, torrent)
         == RowsFor(ledger, caps, u, torrent) + [Budget(u, Scope(torrent), c.cap, 0, None)]
  {
  }

  lemma DropEmpties(s: Store, u: Word32, torrent: Word32)
    ensures ScopeRows(Apply(s, DropBudget(u, torrent)).budgets, u, Scope(torrent)) == []
  {
    OthersRows(s.budgets, u, Scope(torrent), u, Scope(torrent));
  }

  /** All positive charges of this user and torrent entered since the cap was set. */
  function ChargesSince(ledger: seq<Entry>, c: Cap, u: Word32, torrent: Word32): int {
    if |ledger| <= c.from then 0
    else
      var e := ledger[|ledger| - 1];
      ChargesSince(ledger[..|ledger| - 1], c, u, torrent)
      + if e.account == u && e.torrent == torrent > 0 && e.charge > 0 then e.charge else 0
  }

  /** As long as they fit together, a cap has absorbed all of them. */
  lemma {:induction false} AllAbsorbed(ledger: seq<Entry>, c: Cap, u: Word32, torrent: Word32)
    ensures 0 <= Absorbed(ledger, c, u, torrent) <= ChargesSince(ledger, c, u, torrent)
    ensures ChargesSince(ledger, c, u, torrent) <= c.cap ==>
            Absorbed(ledger, c, u, torrent) == ChargesSince(ledger, c, u, torrent)
  {
    if |ledger| > c.from {
      AllAbsorbed(ledger[..|ledger| - 1], c, u, torrent);
    }
  }

  const EMPTY := Store(map[], [], [])

  /** Two overlapping calls, delete and delete, insert and insert, leave both caps in force. */
  lemma OverlappingBudgets(u: Word32, torrent: Word32, cap: Int64, cap': Int64)
    ensures
      var ops := [DropBudget(u, torrent), DropBudget(u, torrent), InsertBudget(u, torrent, cap), InsertBudget(u, torrent, cap')];
      Run(EMPTY, ops).budgets == [Budget(u, Scope(torrent), cap, 0, None), Budget(u, Scope(torrent), cap', 0, None)]
  {
    var a, b, c := DropBudget(u, torrent), InsertBudget(u, torrent, cap), InsertBudget(u, torrent, cap');
    assert [a, a, b, c][..3] == [a, a, b] && [a, a, b][..2] == [a, a] && [a, a][..1] == [a] && [a][..0] == [];
    assert OthersOf([], u, Scope(torrent)) == [];
    assert Run(EMPTY, [a]) == EMPTY && Run(EMPTY, [a, a]) == EMPTY;
    assert Run(EMPTY, [a, a, b]).budgets == [Budget(u, Scope(torrent), cap, 0, None)];
  }

  // ----- Priorities -----

  /** The class last set for the user by a valid request. */
  function LastPriority(ops: seq<Op>, u: Word32): int {
    if ops == [] then STANDARD
    else
      var op := ops[|ops| - 1];
      if op.SetPriority? && op.user == u && 0 <= op.pc <= 3 then op.pc else LastPriority(ops[..|ops| - 1], u)
  }

  /** Over every run a user's class is the one last validly set, and settlements never change it. */
  lemma {:induction false} PriorityIsLastSet(ops: seq<Op>, u: Word32)
    ensures AccountOf(Run(EMPTY, ops), u).priority == LastPriority(ops, u)
  {
    if ops != [] {
      PriorityIsLastSet(ops[..|ops| - 1], u);
    }
  }

  // ----- Caps over all torrents -----

  /** A cap set for torrent 0 applies to every torrent of the user, any other to its own torrent only. */
  lemma CapApplies(s: Store, u: Word32, torrent: Word32, cap: Int64, other: Word32, now: int)
    ensures
      var bs := Apply(s, InsertBudget(u, torrent, cap)).budgets;
      var row := bs[|bs| - 1];
      row.cap == cap && (Applies(row, u, other, now) <==> torrent == 0 || torrent == other)
  {
  }

  /** No row over all torrents has anything consumed. */
  ghost predicate GlobalsUntouched(bs: seq<Budget>) {
    forall i :: 0 <= i < |bs| && bs[i].torrent == None ==> bs[i].consumed == 0
  }

  lemma StepGlobals(s: Store, op: Op)
    requires GlobalsUntouched(s.budgets)
    ensures GlobalsUntouched(Apply(s, op).budgets)
  {
    var bs := Apply(s, op).budgets;
    if op.DropBudget? {
      assert forall i :: 0 <= i < |bs| ==> bs[i] in s.budgets;
    }
  }

  /** A charge matches rows of its own torrent only. Over every run a cap over all torrents is never charged, so what
      it leaves available is always the whole cap, however much was settled. */
  lemma {:induction false} GlobalCapNeverTightens(ops: seq<Op>)
    ensures GlobalsUntouched(Run(EMPTY, ops).budgets)
    ensures forall b :: b in Run(EMPTY, ops).budgets && b.torrent == None ==> Max(0, b.cap - b.consumed) == Max(0, b.cap)
  {
    if ops != [] {
      GlobalCapNeverTightens(ops[..|ops| - 1]);
      StepGlobals(Run(EMPTY, ops[..|ops| - 1]), ops[|ops| - 1]);
    }
  }

  // ----- The two statements of SetUserPriority -----

  /** The account row as written back after being read earlier. */
  function WriteBack(s: Store, u: Word32, loaded: Option<Account>, pc: int): Store {
    s.(accounts := s.accounts[u := WithPriority(loaded, pc)])
  }

  /** Setting a priority reads the account and writes the whole row back in two statements. If other
      operations run in between, the books still balance if and only if the charges they made to
      this account add up to zero (mod 2^64). */
  lemma LostUpdateIff(s: Store, u: Word32, ops: seq<Op>, pc: int)
    requires Valid(s)
    ensures var mid := Run(s, ops);
      Reconciles(WriteBack(mid, u, Load(s, u), pc))
      <==> Wrap64(GRANT - ChargesOf(mid.ledger, u)) == Wrap64(GRANT - ChargesOf(s.ledger, u))
  {
    hide Wrap64, Run;
    var mid := Run(s, ops);
    RunValid(s, ops);
    BalanceCloses(s, u);
    ClosingIsGrantMinusCharges(s.ledger, u);
    ClosingIsGrantMinusCharges(mid.ledger, u);
    var e := WriteBack(mid, u, Load(s, u), pc);
    assert e.accounts[u].balance == Closing(s.ledger, u);
  }

  /** A settlement of one unit between the two statements on an empty store is lost: the ledger has the charge and
      the balance does not. */
  lemma LostUpdate(u: Word32, txn: Txn)
    ensures
      var mid := Run(EMPTY, [Settling(u, 1, 1, txn)]);
      var e := WriteBack(mid, u, Load(EMPTY, u), STANDARD);
      !Reconciles(e) && e.accounts[u].balance == GRANT && ChargesOf(e.ledger, u) == 1
  {
    var op := Settling(u, 1, 1, txn);
    RunOne(EMPTY, op);
    var mid := Apply(EMPTY, op);
    assert mid.ledger == [Entry(txn, u, 1, 1, GRANT, GRANT - 1)];
    assert mid.ledger[..0] == [];
    assert Closing(mid.ledger, u) == GRANT - 1;
    hide Wrap64;
  }

  // ----- Transaction IDs as text -----

  const COLON: Byte := 58

  predicate NoColon(s: seq<Byte>) {
    forall i :: 0 <= i < |s| ==> s[i] != COLON
  }

  /** Go's %d. */
  function Printed(n: int): seq<Byte> {
    if n < 0 then [45] + Decimal(-n) else Decimal(n)
  }

  lemma {:induction false} DigitsOnly(n: nat)
    ensures forall i :: 0 <= i < |Decimal(n)| ==> 48 <= Decimal(n)[i] <= 57
  {
    if n >= 10 {
      DigitsOnly(n / 10);
    }
  }

  lemma PrintedInjective(a: int, b: int)
    ensures NoColon(Printed(a)) && (Printed(a) == Printed(b) <==> a == b)
  {
    DigitsOnly(if a < 0 then -a else a);
    DigitsOnly(if b < 0 then -b else b);
    DecimalReadsBack(if a < 0 then -a else a);
    DecimalReadsBack(if b < 0 then -b else b);
    hide Decimal, DecimalValue;
    if Printed(a) == Printed(b) {
      assert Printed(a)[0] == Printed(b)[0];
      if a < 0 && b < 0 {
        assert Printed(a)[1..] == Decimal(-a) && Printed(b)[1..] == Decimal(-b);
      }
    }
  }

  /** A field without colons ends at the first one. */
  lemma FieldsSplit(a: seq<Byte>, x: seq<Byte>, b: seq<Byte>, y: seq<Byte>)
    requires NoColon(a) && NoColon(b) && a + [COLON] + x == b + [COLON] + y
    ensures a == b && x == y
  {
    var l, r := a + [COLON] + x, b + [COLON] + y;
    assert l[|a|] == COLON && r[|b|] == COLON;
    assert forall i :: 0 <= i < |a| ==> l[i] == a[i];
    assert forall i :: 0 <= i < |b| ==> r[i] == b[i];
    assert |a| == |b|;
    assert l[..|a|] == a && r[..|b|] == b;
    assert l[|a| + 1..] == x && r[|b| + 1..] == y;
  }

  const UP: seq<Byte> := [117, 112]
  const DL: seq<Byte> := [100, 108]
  const PREFIX: seq<Byte> := [97, 110, 110, 111, 117, 110, 99, 101]

  /** The text of an announce's transaction ID: prefix, user, torrent, second and direction between colons. */
  function AnnounceText(user: Word32, torrent: Word32, second: int, upload: bool): seq<Byte> {
    PREFIX + [COLON] + (Printed(user) + [COLON] + (Printed(torrent) + [COLON] + (Printed(second) + [COLON]
      + if upload then UP else DL)))
  }

  /** Two announces share the text exactly when they share user, torrent, second and direction. */
  lemma AnnounceTextInjective(u: Word32, t: Word32, n: int, up: bool, u': Word32, t': Word32, n': int, up': bool)
    ensures AnnounceText(u, t, n, up) == AnnounceText(u', t', n', up') <==> u == u' && t == t' && n == n' && up == up'
  {
    PrintedInjective(u, u');
    PrintedInjective(u', u);
    PrintedInjective(t, t');
    PrintedInjective(t', t);
    PrintedInjective(n, n');
    PrintedInjective(n', n);
    assert UP[0] != DL[0];
    var d, d' := if up then UP else DL, if up' then UP else DL;
    var x, x' := Printed(n) + [COLON] + d, Printed(n') + [COLON] + d';
    var y, y' := Printed(t) + [COLON] + x, Printed(t') + [COLON] + x';
    var z, z' := Printed(u) + [COLON] + y, Printed(u') + [COLON] + y';
    assert NoColon(PREFIX);
    hide Printed, NoColon;
    if AnnounceText(u, t, n, up) == AnnounceText(u', t', n', up') {
      FieldsSplit(PREFIX, z, PREFIX, z');
      FieldsSplit(Printed(u), y, Printed(u'), y');
      FieldsSplit(Printed(t), x, Printed(t'), x');
      FieldsSplit(Printed(n), d, Printed(n'), d');
    }
  }

  /** And none of them is a text without a colon, such as a generated hex ID. */
  lemma AnnounceTextHasColon(u: Word32, t: Word32, n: int, up: bool, other: seq<Byte>)
    requires NoColon(other)
    ensures AnnounceText(u, t, n, up) != other
  {
    assert AnnounceText(u, t, n, up)[|PREFIX|] == COLON;
  }

  // ----- Announces -----

  datatype Stats = Stats(user: Word32, torrent: Word32, uploaded: Int64, downloaded: Int64,
                         seeders: nat, leechers: nat, nanos: Int64)

  /** Go's integer division of the Unix time in nanoseconds. */
  function SecondOf(st: Stats): int {
    Quot(st.nanos, 1_000_000_000)
  }

  /** The second an instant falls into; before 1970 the one it is cut off to. */
  lemma SecondHolds(st: Stats)
    ensures st.nanos >= 0 ==> SecondOf(st) * 1_000_000_000 <= st.nanos < (SecondOf(st) + 1) * 1_000_000_000
    ensures st.nanos < 0 ==> (SecondOf(st) - 1) * 1_000_000_000 < st.nanos <= SecondOf(st) * 1_000_000_000
  {
  }

  function TxnFor(st: Stats, upload: bool): Txn {
    AnnounceText(st.user, st.torrent, SecondOf(st), upload)
  }

  predicate SameSecond(a: Stats, b: Stats) {
    a.user == b.user && a.torrent == b.torrent && SecondOf(a) == SecondOf(b)
  }

  /** Announces share a transaction ID exactly within one user, torrent, second and direction. */
  lemma SameTxnIff(a: Stats, up: bool, b: Stats, up': bool)
    ensures TxnFor(a, up) == TxnFor(b, up') <==> SameSecond(a, b) && up == up'
  {
    AnnounceTextInjective(a.user, a.torrent, SecondOf(a), up, b.user, b.torrent, SecondOf(b), up');
    hide AnnounceText, SecondOf;
  }

  /** The settlements an announce leads to: an upload credit, then a download charge. */
  function UploadOp(prices: Table, st: Stats): seq<Op> {
    var credit := CreditForUpload(prices, st.uploaded, st.seeders, st.leechers);
    if st.uploaded > 0 && credit > 0
    then [Settling(st.user, st.torrent, Wrap64(-credit), TxnFor(st, true))] else []
  }

  function DownloadOp(prices: Table, st: Stats): seq<Op> {
    var charge := ChargeForDownload(prices, st.downloaded, st.seeders, st.leechers);
    if st.downloaded > 0 && charge > 0
    then [Settling(st.user, st.torrent, charge, TxnFor(st, false))] else []
  }

  function AnnounceOps(prices: Table, st: Stats): seq<Op> {
    UploadOp(prices, st) + DownloadOp(prices, st)
  }

  lemma {:induction false} RunSplits(s: Store, xs: seq<Op>, ys: seq<Op>)
    ensures Run(s, xs + ys) == Run(Run(s, xs), ys)
  {
    if ys == [] {
      assert xs + ys == xs;
    } else {
      RunSplits(s, xs, ys[..|ys| - 1]);
      assert (xs + ys)[..|xs + ys| - 1] == xs + ys[..|ys| - 1];
    }
  }

  lemma RunOne(s: Store, op: Op)
    ensures Run(s, [op]) == Apply(s, op)
  {
    assert [op][..0] == [];
  }

  function DirectionOp(prices: Table, st: Stats, up: bool): seq<Op> {
    if up then UploadOp(prices, st) else DownloadOp(prices, st)
  }

  /** Transaction IDs only resolve to the second: a second announce of the same user and torrent
      within that second settles nothing in a direction the first one settled, whatever it reports. */
  lemma SameSecondSettlesOnce(
    s: Store, prices: Table, prices': Table, first: Stats, second: Stats, ops: seq<Op>, up: bool)
    requires SameSecond(first, second)
    ensures var mid := Run(Run(s, AnnounceOps(prices, first)), ops);
      DirectionOp(prices, first, up) != [] ==> Run(mid, DirectionOp(prices', second, up)) == mid
  {
    SameTxnIff(first, up, second, up);
    hide CreditForUpload, ChargeForDownload, TxnFor;
    if DirectionOp(prices, first, up) != [] {
      var op := DirectionOp(prices, first, up)[0];
      var s0 := if up then s else Run(s, UploadOp(prices, first));
      var after := if up then DownloadOp(prices, first) else [];
      var rest := DirectionOp(prices', second, up);
      assert DirectionOp(prices, first, up) == [op];
      assert rest != [] ==> |rest| == 1 && rest[0].Settling? && rest[0].txn == op.txn && rest[0].account == op.account;
      RunSplits(s, UploadOp(prices, first), DownloadOp(prices, first));
      RunOne(s0, op);
      var s1 := Apply(s0, op);
      RunAppends(s1, after);
      var s2 := Run(s1, after);
      RunAppends(s2, ops);
      var mid := Run(s2, ops);
      assert s2 == Run(s, AnnounceOps(prices, first));
      hide Run, UploadOp, DownloadOp, DirectionOp;
      SettledAfter(s0, op);
      StillSettled(s1, mid, op);
      NoOpRun(mid, rest);
    }
  }

  // ----- Exactly when an announce settles -----

  /** Credit earned or charge due in one direction; nothing is settled unless it is positive. */
  function Amount(prices: Table, st: Stats, up: bool): Int64 {
    if up then CreditForUpload(prices, st.uploaded, st.seeders, st.leechers)
    else ChargeForDownload(prices, st.downloaded, st.seeders, st.leechers)
  }

  lemma OpsOf(prices: Table, st: Stats, up: bool)
    ensures var a := Amount(prices, st, up);
      DirectionOp(prices, st, up) ==
      if a > 0 then [Settling(st.user, st.torrent, if up then Wrap64(-a) else a, TxnFor(st, up))] else []
  {
    hide MulFrac, Effective, TxnFor;
  }

  /** An announce with the prices of its moment, or anything else that does not use the text of an announce. */
  datatype Event = Announcing(prices: Table, st: Stats) | Other(op: Op)

  predicate Genuine(e: Event) {
    e.Other? && e.op.Settling? ==> NoColon(e.op.txn)
  }

  function OpsFor(e: Event): seq<Op> {
    match e
    case Announcing(prices, st) => AnnounceOps(prices, st)
    case Other(op) => [op]
  }

  function Play(events: seq<Event>): Store {
    if events == [] then EMPTY else Run(Play(events[..|events| - 1]), OpsFor(events[|events| - 1]))
  }

  /** The event is an announce of the same user, torrent and second with something to settle in this direction. */
  predicate Claims(e: Event, st: Stats, up: bool) {
    e.Announcing? && SameSecond(e.st, st) && Amount(e.prices, e.st, up) > 0
  }

  lemma SettledByOp(s: Store, op: Op, txn: Txn)
    ensures Settled(Apply(s, op).ledger, txn) <==> Settled(s.ledger, txn) || (op.Settling? && op.txn == txn)
  {
    if op.Settling? {
      SettledAfter(s, op);
    }
    StepAppends(s, op);
    if Settled(s.ledger, txn) {
      var i :| 0 <= i < |s.ledger| && s.ledger[i].txn == txn;
      assert Apply(s, op).ledger[i].txn == txn;
    }
  }

  /** The store after the settlement of one direction. */
  function AfterDirection(s: Store, prices: Table, st: Stats, up: bool): Store {
    Run(s, DirectionOp(prices, st, up))
  }

  lemma SettledByDirection(s: Store, prices: Table, st: Stats, up: bool, txn: Txn)
    ensures Settled(AfterDirection(s, prices, st, up).ledger, txn) <==>
            Settled(s.ledger, txn) || (Amount(prices, st, up) > 0 && TxnFor(st, up) == txn)
  {
    OpsOf(prices, st, up);
    hide Amount, DirectionOp, Settled;
    var ops := DirectionOp(prices, st, up);
    if ops != [] {
      RunOne(s, ops[0]);
      SettledByOp(s, ops[0], txn);
    }
  }

  lemma SettledByEvent(s: Store, e: Event, st: Stats, up: bool)
    requires Genuine(e)
    ensures Settled(Run(s, OpsFor(e)).ledger, TxnFor(st, up)) <==> Settled(s.ledger, TxnFor(st, up)) || Claims(e, st, up)
  {
    var txn := TxnFor(st, up);
    match e
    case Other(op) =>
      if op.Settling? {
        AnnounceTextHasColon(st.user, st.torrent, SecondOf(st), up, op.txn);
      }
      hide AnnounceText;
      RunOne(s, op);
      SettledByOp(s, op, txn);
    case Announcing(prices, st') =>
      RunSplits(s, UploadOp(prices, st'), DownloadOp(prices, st'));
      SameTxnIff(st', true, st, up);
      SameTxnIff(st', false, st, up);
      hide Amount, Settled, UploadOp, DownloadOp, TxnFor, SameSecond;
      SettledByDirection(s, prices, st', true, txn);
      SettledByDirection(AfterDirection(s, prices, st', true), prices, st', false, txn);
  }

  ghost predicate Claimed(events: seq<Event>, st: Stats, up: bool) {
    exists i :: 0 <= i < |events| && Claims(events[i], st, up)
  }

  lemma ClaimedGrows(front: seq<Event>, e: Event, st: Stats, up: bool)
    ensures Claimed(front + [e], st, up) <==> Claimed(front, st, up) || Claims(e, st, up)
  {
    hide Claims;
    var events := front + [e];
    assert forall i :: 0 <= i < |front| ==> front[i] == events[i];
    assert events[|front|] == e;
  }

  ghost predicate AllGenuine(events: seq<Event>) {
    forall i :: 0 <= i < |events| ==> Genuine(events[i])
  }

  lemma {:induction false} SettledIff(events: seq<Event>, st: Stats, up: bool)
    requires AllGenuine(events)
    ensures Settled(Play(events).ledger, TxnFor(st, up)) <==> Claimed(events, st, up)
  {
    if events != [] {
      var front, e := events[..|events| - 1], events[|events| - 1];
      assert events == front + [e] && AllGenuine(front) && Genuine(e);
      hide Settled, Claimed, Claims, Run, OpsFor, Genuine, AllGenuine, TxnFor;
      SettledIff(front, st, up);
      SettledByEvent(Play(front), e, st, up);
      ClaimedGrows(front, e, st, up);
    }
  }

  /** The announce adds an entry of its own for this direction, and the user's balance moves by its amount. */
  ghost predicate Settles(s: Store, prices: Table, st: Stats, up: bool) {
    var before := if up then s else AfterDirection(s, prices, st, true);
    var a := Amount(prices, st, up);
    var after := AfterDirection(before, prices, st, up);
    && after.ledger != before.ledger
    && after.ledger[..|after.ledger| - 1] == before.ledger
    && (var e := after.ledger[|after.ledger| - 1];
        e.txn == TxnFor(st, up) && e.account == st.user && e.torrent == st.torrent && e.charge == if up then -a else a)
    && AccountOf(after, st.user).balance == Wrap64(AccountOf(before, st.user).balance + if up then a else -a)
  }

  lemma SettlesUnlessTaken(s: Store, prices: Table, st: Stats, up: bool)
    ensures Settles(s, prices, st, up) <==> Amount(prices, st, up) > 0 && !Settled(s.ledger, TxnFor(st, up))
  {
    var before := if up then s else AfterDirection(s, prices, st, true);
    SettledByDirection(s, prices, st, true, TxnFor(st, false));
    SameTxnIff(st, true, st, false);
    OpsOf(prices, st, up);
    hide Amount, DirectionOp, Settled, TxnFor, Wrap64;
    var ops := DirectionOp(prices, st, up);
    if ops != [] {
      RunOne(before, ops[0]);
    }
  }

  /** Over every run from the empty store: an announce settles its amount in a direction if and only if the amount is
      positive and no earlier announce of the same user, torrent and second had a positive one in that direction. */
  lemma AnnounceSettlesIff(events: seq<Event>, prices: Table, st: Stats, up: bool)
    requires AllGenuine(events)
    ensures Settles(Play(events), prices, st, up) <==> Amount(prices, st, up) > 0 && !Claimed(events, st, up)
  {
    hide Settles, Settled, Amount, Play, Claimed, TxnFor;
    SettlesUnlessTaken(Play(events), prices, st, up);
    SettledIff(events, st, up);
  }

  lemma SettledAfter(s: Store, op: Op)
    requires op.Settling?
    ensures Settled(Apply(s, op).ledger, op.txn) && op.account in Apply(s, op).accounts
  {
    if !Settled(s.ledger, op.txn) {
      assert Apply(s, op).ledger[|s.ledger|].txn == op.txn;
    }
  }

  lemma StillSettled(s: Store, e: Store, op: Op)
    requires op.Settling? && Settled(s.ledger, op.txn) && op.account in s.accounts
    requires s.ledger <= e.ledger && s.accounts.Keys <= e.accounts.Keys
    ensures Settled(e.ledger, op.txn) && op.account in e.accounts
  {
    var i :| 0 <= i < |s.ledger| && s.ledger[i].txn == op.txn;
    assert e.ledger[i].txn == op.txn;
  }

  lemma NoOpRun(s: Store, ops: seq<Op>)
    requires ops == [] || (|ops| == 1 && ops[0].Settling? && Settled(s.ledger, ops[0].txn) && ops[0].account in s.accounts)
    ensures Run(s, ops) == s
  {
    if ops != [] {
      var op := ops[0];
      assert ops == [op];
      RunOne(s, op);
      assert s.accounts[op.account := s.accounts[op.account]] == s.accounts;
    }
  }

  // ----- The code -----

  datatype SettleResult = SettleResult(before: Int64, after: Int64, wasIdempotent: bool)

  class Commons {
    var accounts: map<Word32, Account>
    var ledger: seq<Entry>
    var budgets: seq<Budget>
    const prices: Table

    ghost function View(): (s: Store)
      reads this
    {
      Store(accounts, ledger, budgets)
    }

    constructor (prices: Table)
      ensures View() == Store(map[], [], []) && Valid(View()) && this.prices == prices
    {
      accounts, ledger, budgets := map[], [], [];
      this.prices := prices;
    }

    /** One transaction: read or open the account, insert the entry unless the ID is taken, update
        the balance, and charge the torrent budgets that can take it. */
    method Settle(account: Word32, torrent: Word32, charge: Int64, txn: Txn) returns (r: SettleResult)
      modifies this
      ensures View() == AfterSettle(old(View()), account, torrent, charge, txn)
      ensures r.wasIdempotent <==> Settled(old(ledger), txn)
      ensures r.after == accounts[account].balance
      ensures r.before == AccountOf(old(View()), account).balance
    {
      if account !in accounts {
        accounts := accounts[account := Account(GRANT, STANDARD)];
      }
      var before := accounts[account].balance;
      var after := Wrap64(before - charge);
      var taken := HasTxn(txn);
      if taken {
        return SettleResult(before, before, true);
      }
      ledger := ledger + [Entry(txn, account, torrent, charge, before, after)];
      accounts := accounts[account := accounts[account].(balance := after)];
      if charge > 0 && torrent > 0 {
        ConsumeBudgets(account, torrent, charge);
      }
      return SettleResult(before, after, false);
    }

    method HasTxn(txn: Txn) returns (found: bool)
      ensures found <==> Settled(ledger, txn)
    {
      for i := 0 to |ledger|
        invariant forall j :: 0 <= j < i ==> ledger[j].txn != txn
      {
        if ledger[i].txn == txn {
          return true;
        }
      }
      return false;
    }

    method ConsumeBudgets(user: Word32, torrent: Word32, charge: int)
      modifies this`budgets
      ensures budgets == ChargedAll(old(budgets), user, torrent, charge)
    {
      var i := 0;
      while i < |budgets|
        invariant 0 <= i <= |budgets| == |old(budgets)|
        invariant forall j :: 0 <= j < |budgets| ==>
          budgets[j] == if j < i then Charged(old(budgets)[j], user, torrent, charge) else old(budgets)[j]
      {
        var b := budgets[i];
        if b.user == user && b.torrent == Some(torrent) && b.cap - b.consumed >= charge {
          budgets := budgets[i := b.(consumed := b.consumed + charge)];
        }
        i := i + 1;
      }
    }

    method SettleAnnounce(st: Stats)
      modifies this
      ensures View() == Run(old(View()), AnnounceOps(prices, st))
    {
      hide CreditForUpload, ChargeForDownload;
      ghost var s := View();
      if st.uploaded > 0 {
        var credit := CreditForUpload(prices, st.uploaded, st.seeders, st.leechers);
        if credit > 0 {
          var r := Settle(st.user, st.torrent, Wrap64(-credit), TxnFor(st, true));
          RunOne(s, UploadOp(prices, st)[0]);
        }
      }
      assert View() == Run(s, UploadOp(prices, st));
      ghost var mid := View();
      if st.downloaded > 0 {
        var charge := ChargeForDownload(prices, st.downloaded, st.seeders, st.leechers);
        if charge > 0 {
          var r := Settle(st.user, st.torrent, charge, TxnFor(st, false));
          RunOne(mid, DownloadOp(prices, st)[0]);
        }
      }
      RunSplits(s, UploadOp(prices, st), DownloadOp(prices, st));
    }

    method SetUserPriority(user: Word32, pc: int) returns (ok: bool)
      modifies this`accounts
      ensures View() == Apply(old(View()), SetPriority(user, pc))
      ensures ok <==> ValidClass(pc)
    {
      if pc < 0 || pc > 3 {
        return false;
      }
      var acct := Account(GRANT, pc);
      if user in accounts {
        acct := accounts[user].(priority := pc);
      }
      accounts := accounts[user := acct];
      return true;
    }

    /** Replace the cap of (user, torrent); `wholeCC` is scaled with 64-bit overflow. */
    method SetUserBudget(user: Word32, torrent: Word32, wholeCC: Int64)
      modifies this`budgets
      ensures View() == Apply(Apply(old(View()), DropBudget(user, torrent)),
                              InsertBudget(user, torrent, Wrap64(wholeCC * CREDIT_SCALE)))
    {
      var scope := if torrent == 0 then None else Some(torrent);
      var kept := [];
      for i := 0 to |budgets|
        invariant kept == OthersOf(budgets[..i], user, scope)
      {
        assert budgets[..i + 1][..i] == budgets[..i];
        if budgets[i].user != user || budgets[i].torrent != scope {
          kept := kept + [budgets[i]];
        }
      }
      assert budgets[..|budgets|] == budgets;
      budgets := kept;
      budgets := budgets + [Budget(user, scope, Wrap64(wholeCC * CREDIT_SCALE), 0, None)];
    }

    /** What the tightest budget of (account, torrent) still allows; unlimited without one. */
    method CheckBudgetAvailable(account: Word32, torrent: Word32, now: int) returns (remaining: int)
      ensures remaining >= 0
      ensures forall b :: b in budgets && Applies(b, account, torrent, now) ==> remaining <= Max(0, b.cap - b.consumed)
      ensures (forall b :: b in budgets ==> !Applies(b, account, torrent, now)) ==> remaining == MAX_CREDIT
      ensures (exists b :: b in budgets && Applies(b, account, torrent, now)) ==>
        exists b :: b in budgets && Applies(b, account, torrent, now) && remaining == Max(0, b.cap - b.consumed)
    {
      var best: Option<int> := None;
      for i := 0 to |budgets|
        invariant best.None? <==> forall j :: 0 <= j < i ==> !Applies(budgets[j], account, torrent, now)
        invariant best.Some? ==> forall j :: 0 <= j < i && Applies(budgets[j], account, torrent, now) ==>
          best.value <= budgets[j].cap - budgets[j].consumed
        invariant best.Some? ==> exists j ::
          0 <= j < i && Applies(budgets[j], account, torrent, now) && best.value == budgets[j].cap - budgets[j].consumed
      {
        var b := budgets[i];
        if b.user == account && (b.torrent == Some(torrent) || b.torrent == None)
           && (b.deadline == None || b.deadline.value > now) {
          if best.None? || b.cap - b.consumed < best.value {
            best := Some(b.cap - b.consumed);
          }
        }
      }
      if best.None? {
        return MAX_CREDIT;
      }
      return if best.value < 0 then 0 else best.value;
    }
  }

  predicate Applies(b: Budget, account: Word32, torrent: Word32, now: int) {
    && b.user == account && (b.torrent == Some(torrent) || b.torrent == None)
    && (b.deadline == None || b.deadline.value > now)
  }
}
