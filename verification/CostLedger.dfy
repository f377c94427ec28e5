/** The cost ledger of the dialer's operations
    (internal/platform/dialer/orchestration.go:225-328).  Amounts are real numbers. */
module CostLedger {

  datatype Transaction = Transaction(
    costEventID: string, tenantID: string, campaignID: string, jobID: string, leadID: string, callID: string,
    attempt: int, provider: string, platformCost: real, providerCost: real, totalCost: real, billable: bool, createdAt: int)

  /** The sums per job and per tenant, the event ids recorded, the transactions per job. */
  datatype Ledger = Ledger(
    costs: map<string, real>, tenantCosts: map<string, real>, recordedKeys: set<string>,
    transactions: map<string, seq<Transaction>>)

  const EMPTY: Ledger := Ledger(map[], map[], {}, map[])

  /** m[k] += x on a map without k starts from zero. */
  function Plus(m: map<string, real>, k: string, x: real): map<string, real> {
    m[k := At(m, k) + x]
  }

  function At(m: map<string, real>, k: string): real {
    if k in m then m[k] else 0.0
  }

  function ListAt(m: map<string, seq<Transaction>>, k: string): seq<Transaction> {
    if k in m then m[k] else []
  }

  datatype Event =
    | Cost(costEventID: string, jobID: string, platformCost: real, providerCost: real)
    | Tx(tx: Transaction, now: int)

  /** The id an event is recorded under. */
  function Key(e: Event): string {
    match e
    case Cost(id, jobID, _, _) => if id == "" then jobID else id
    case Tx(tx, _) => if tx.costEventID != "" then tx.costEventID else if tx.callID != "" then tx.callID else tx.jobID
  }

  /** The transaction as it is kept. */
  function Kept(tx: Transaction, now: int): Transaction {
    tx.(costEventID := Key(Tx(tx, now)), createdAt := if tx.createdAt == 0 then now else tx.createdAt,
        totalCost := tx.platformCost + tx.providerCost)
  }

  function Recorded(l: Ledger, e: Event): Ledger {
    if Key(e) in l.recordedKeys then l
    else
      var keys := l.recordedKeys + {Key(e)};
      match e
      case Cost(_, jobID, platform, provider) => l.(recordedKeys := keys, costs := Plus(l.costs, jobID, platform + provider))
      case Tx(tx, now) =>
        var t := Kept(tx, now);
        Ledger(if t.billable then Plus(l.costs, t.jobID, t.totalCost) else l.costs,
               if t.billable && t.tenantID != "" then Plus(l.tenantCosts, t.tenantID, t.totalCost) else l.tenantCosts,
               keys, l.transactions[t.jobID := ListAt(l.transactions, t.jobID) + [t]])
  }

  class OperationCostEngine {
    var costs: map<string, real>
    var tenantCosts: map<string, real>
    var recordedKeys: set<string>
    var transactions: map<string, seq<Transaction>>

    function State(): Ledger
      reads this
    {
      Ledger(costs, tenantCosts, recordedKeys, transactions)
    }

    constructor ()
      ensures State() == EMPTY
    {
      costs, tenantCosts, recordedKeys, transactions := map[], map[], {}, map[];
    }

    method RecordCost(costEventID: string, jobID: string, platformCost: real, providerCost: real)
      modifies this
      ensures State() == Recorded(old(State()), Cost(costEventID, jobID, platformCost, providerCost))
    {
      var id := costEventID;
      if id == "" {
        id := jobID;
      }
      if id in recordedKeys {
        return;
      }
      recordedKeys := recordedKeys + {id};
      costs := costs[jobID := (if jobID in costs then costs[jobID] else 0.0) + (platformCost + providerCost)];
    }

    method RecordTransaction(tx: Transaction, now: int)
      modifies this
      ensures State() == Recorded(old(State()), Tx(tx, now))
    {
      var t := tx;
      if t.costEventID == "" {
        if t.callID != "" {
          t := t.(costEventID := t.callID);
        } else {
          t := t.(costEventID := t.jobID);
        }
      }
      if t.costEventID in recordedKeys {
        return;
      }
      recordedKeys := recordedKeys + {t.costEventID};
      if t.createdAt == 0 {
        t := t.(createdAt := now);
      }
      t := t.(totalCost := t.platformCost + t.providerCost);
      transactions := transactions[t.jobID := ListAt(transactions, t.jobID) + [t]];
      if t.billable {
        costs := Plus(costs, t.jobID, t.totalCost);
        if t.tenantID != "" {
          tenantCosts := Plus(tenantCosts, t.tenantID, t.totalCost);
        }
      }
    }

    method GetTotalCost(jobID: string) returns (cost: real)
      ensures cost == At(State().costs, jobID)
    {
      cost := if jobID in costs then costs[jobID] else 0.0;
    }

    method GetTenantCost(tenantID: string) returns (cost: real)
      ensures cost == At(State().tenantCosts, tenantID)
    {
      cost := if tenantID in tenantCosts then tenantCosts[tenantID] else 0.0;
    }
  }

  // ------------------------------------------------------------------
  // The ledger as sums over its history
  // ------------------------------------------------------------------

  function After(run: seq<Event>, n: nat): Ledger
    requires n <= |run|
  {
    if n == 0 then EMPTY else Recorded(After(run, n - 1), run[n - 1])
  }

  /** No earlier event has the id of event `i`. */
  ghost predicate IsFirst(run: seq<Event>, i: nat)
    requires i < |run|
  {
    forall j :: 0 <= j < i ==> Key(run[j]) != Key(run[i])
  }

  /** An event is recorded under its own id; a cost without one under its job's; and a
      transaction without one under its call's, or else its job's. */
  lemma KeyIs(tx: Transaction, now: int, id: string, jobID: string, platform: real, provider: real)
    ensures id != "" ==> Key(Cost(id, jobID, platform, provider)) == id
    ensures Key(Cost("", jobID, platform, provider)) == jobID
    ensures tx.costEventID != "" ==> Key(Tx(tx, now)) == tx.costEventID
    ensures tx.costEventID == "" && tx.callID != "" ==> Key(Tx(tx, now)) == tx.callID
    ensures tx.costEventID == "" && tx.callID == "" ==> Key(Tx(tx, now)) == tx.jobID
  {
  }

  /** A transaction is kept as it is, but for its id, its total, and the time if it had
      none. */
  lemma KeptIs(tx: Transaction, now: int)
    ensures var t := Kept(tx, now);
            && t.costEventID == Key(Tx(tx, now)) && t.totalCost == tx.platformCost + tx.providerCost
            && (tx.createdAt != 0 ==> t.createdAt == tx.createdAt) && (tx.createdAt == 0 ==> t.createdAt == now)
            && t.(costEventID := tx.costEventID, totalCost := tx.totalCost, createdAt := tx.createdAt) == tx
  {
  }

  function Total(tx: Transaction): real {
    tx.platformCost + tx.providerCost
  }

  /** What an event adds to the cost of a job. */
  function JobAmount(e: Event, jobID: string): real {
    match e
    case Cost(_, id, platform, provider) => if id == jobID then platform + provider else 0.0
    case Tx(tx, _) => if tx.jobID == jobID && tx.billable then Total(tx) else 0.0
  }

  /** What it adds to the cost of a tenant. */
  function TenantAmount(e: Event, tenantID: string): real {
    if e.Tx? && e.tx.billable && e.tx.tenantID == tenantID && tenantID != "" then Total(e.tx) else 0.0
  }

  ghost function JobSum(run: seq<Event>, n: nat, jobID: string): real
    requires n <= |run|
  {
    if n == 0 then 0.0 else JobSum(run, n - 1, jobID) + if IsFirst(run, n - 1) then JobAmount(run[n - 1], jobID) else 0.0
  }

  ghost function TenantSum(run: seq<Event>, n: nat, tenantID: string): real
    requires n <= |run|
  {
    if n == 0 then 0.0
    else TenantSum(run, n - 1, tenantID) + if IsFirst(run, n - 1) then TenantAmount(run[n - 1], tenantID) else 0.0
  }

  /** The job's transactions that were first of their id, in order. */
  ghost function Listed(run: seq<Event>, n: nat, jobID: string): seq<Transaction>
    requires n <= |run|
  {
    if n == 0 then []
    else
      var e := run[n - 1];
      Listed(run, n - 1, jobID)
      + (if e.Tx? && e.tx.jobID == jobID && IsFirst(run, n - 1) then [Kept(e.tx, e.now)] else [])
  }

  lemma {:induction false} KeysRecorded(run: seq<Event>, n: nat, key: string)
    requires n <= |run|
    ensures key in After(run, n).recordedKeys <==> exists j :: 0 <= j < n && Key(run[j]) == key
  {
    if n > 0 {
      KeysRecorded(run, n - 1, key);
    }
  }

  lemma FirstRecorded(run: seq<Event>, n: nat)
    requires n < |run|
    ensures IsFirst(run, n) <==> Key(run[n]) !in After(run, n).recordedKeys
  {
    KeysRecorded(run, n, Key(run[n]));
  }

  lemma RecordedAmounts(l: Ledger, e: Event, jobID: string, tenantID: string)
    ensures var l' := Recorded(l, e);
            if Key(e) in l.recordedKeys then l' == l
            else
              && At(l'.costs, jobID) == At(l.costs, jobID) + JobAmount(e, jobID)
              && At(l'.tenantCosts, tenantID) == At(l.tenantCosts, tenantID) + TenantAmount(e, tenantID)
              && ListAt(l'.transactions, jobID)
              == ListAt(l.transactions, jobID) + if e.Tx? && e.tx.jobID == jobID then [Kept(e.tx, e.now)] else []
  {
  }

  /** For every sequence of events: a job's cost is the sum of its accepted RecordCost
      amounts and of its billable transactions, each counted once; a tenant's is the sum
      of the billable transactions that name it; and a job's transactions are those first
      of their id, in order. */
  lemma {:induction false} LedgerIsSums(run: seq<Event>, n: nat, jobID: string, tenantID: string)
    requires n <= |run|
    ensures At(After(run, n).costs, jobID) == JobSum(run, n, jobID)
    ensures At(After(run, n).tenantCosts, tenantID) == TenantSum(run, n, tenantID)
    ensures ListAt(After(run, n).transactions, jobID) == Listed(run, n, jobID)
  {
    if n > 0 {
      LedgerIsSums(run, n - 1, jobID, tenantID);
      FirstRecorded(run, n - 1);
      RecordedAmounts(After(run, n - 1), run[n - 1], jobID, tenantID);
    }
  }

  // ------------------------------------------------------------------
  // Repeats change nothing
  // ------------------------------------------------------------------

  function Run(l: Ledger, run: seq<Event>): Ledger
    decreases |run|
  {
    if run == [] then l else Run(Recorded(l, run[0]), run[1..])
  }

  /** The run without events whose id is in `seen` or came before. */
  function WithoutRepeats(seen: set<string>, run: seq<Event>): (r: seq<Event>)
    decreases |run|
  {
    if run == [] then []
    else if Key(run[0]) in seen then WithoutRepeats(seen, run[1..])
    else [run[0]] + WithoutRepeats(seen + {Key(run[0])}, run[1..])
  }

  lemma RecordedKeys(l: Ledger, e: Event)
    ensures Recorded(l, e).recordedKeys == l.recordedKeys + {Key(e)}
    ensures Key(e) in l.recordedKeys ==> Recorded(l, e) == l
  {
  }

  /** Any sequence leaves the same ledger as that sequence with later repeats of each id
      deleted. */
  lemma {:induction false} RepeatsChangeNothing(l: Ledger, run: seq<Event>)
    ensures Run(l, run) == Run(l, WithoutRepeats(l.recordedKeys, run))
    decreases |run|
  {
    if run != [] {
      var e, rest := run[0], run[1..];
      RecordedKeys(l, e);
      if Key(e) in l.recordedKeys {
        RepeatsChangeNothing(l, rest);
      } else {
        var l' := Recorded(l, e);
        RepeatsChangeNothing(l', rest);
        var kept := WithoutRepeats(l.recordedKeys + {Key(e)}, rest);
        assert ([e] + kept)[1..] == kept;
      }
    }
  }
}
