/** The nightly sweep: group the day's rides by driver, take the commission, credit the wallets. In paise. */
module Settlement {
  import opened Common
  import opened RideStateMachine
  import opened Rounding

  type DriverId = nat
  type Time = int

  datatype RideRow = RideRow(
    status: Status, completedAt: Option<Time>, driver: Option<DriverId>, totalFare: Option<int>)

  datatype Record = Record(driver: DriverId, rides: nat, gross: int, commission: int, net: int)

  function Fare(r: RideRow): int {
    if r.totalFare.Some? then r.totalFare.value else 0
  }

  function Gross(rs: seq<RideRow>): int {
    if rs == [] then 0 else Gross(rs[..|rs| - 1]) + Fare(rs[|rs| - 1])
  }

  /** The commission on an amount, rounded to whole paise. */
  function Commission(percent: real, gross: int): int {
    Round(gross as real * percent / 100.0)
  }

  predicate Due(r: RideRow, since: Time) {
    r.status == COMPLETED && r.completedAt.Some? && r.completedAt.value >= since
  }

  function Selected(table: seq<RideRow>, since: Time): seq<RideRow> {
    if table == [] then []
    else Selected(table[..|table| - 1], since) + if Due(table[|table| - 1], since) then [table[|table| - 1]] else []
  }

  /** The rides of one driver, in order. */
  function Of(rs: seq<RideRow>, d: DriverId): seq<RideRow> {
    if rs == [] then []
    else Of(rs[..|rs| - 1], d) + if rs[|rs| - 1].driver == Some(d) then [rs[|rs| - 1]] else []
  }

  /** The drivers, in the order of their first ride. */
  function Drivers(rs: seq<RideRow>): seq<DriverId> {
    if rs == [] then []
    else
      var before, r := Drivers(rs[..|rs| - 1]), rs[|rs| - 1];
      if r.driver.None? || r.driver.value in before then before else before + [r.driver.value]
  }

  /** What was earned on rides that have a driver, summed ride by ride. */
  function Earned(rs: seq<RideRow>): int {
    if rs == [] then 0
    else Earned(rs[..|rs| - 1]) + if rs[|rs| - 1].driver.Some? then Fare(rs[|rs| - 1]) else 0
  }

  predicate NoDuplicates(ds: seq<DriverId>) {
    forall i, j :: 0 <= i < j < |ds| ==> ds[i] != ds[j]
  }

  lemma {:induction false} DriversSound(rs: seq<RideRow>)
    ensures NoDuplicates(Drivers(rs))
    ensures forall d :: d in Drivers(rs) <==> exists i :: 0 <= i < |rs| && rs[i].driver == Some(d)
  {
    if rs != [] {
      var n := |rs| - 1;
      DriversSound(rs[..n]);
      forall d ensures d in Drivers(rs) <==> exists i :: 0 <= i < |rs| && rs[i].driver == Some(d) {
        if i :| 0 <= i < |rs| && rs[i].driver == Some(d) && i < n {
          assert rs[..n][i].driver == Some(d);
        }
        if d in Drivers(rs[..n]) {
          var i :| 0 <= i < n && rs[..n][i].driver == Some(d);
          assert rs[i].driver == Some(d);
        }
      }
    }
  }

  lemma {:induction false} OfNobody(rs: seq<RideRow>, d: DriverId)
    ensures Of(rs, d) == [] <==> d !in Drivers(rs)
  {
    if rs != [] {
      OfNobody(rs[..|rs| - 1], d);
    }
  }

  lemma OfStep(rs: seq<RideRow>, d: DriverId)
    requires rs != []
    ensures var before, r := rs[..|rs| - 1], rs[|rs| - 1];
            Gross(Of(rs, d)) == Gross(Of(before, d)) + if r.driver == Some(d) then Fare(r) else 0
  {
    var before, r := rs[..|rs| - 1], rs[|rs| - 1];
    if r.driver == Some(d) {
      assert Of(rs, d)[..|Of(before, d)|] == Of(before, d);
    } else {
      assert Of(rs, d) == Of(before, d);
    }
  }

  function GrossOver(ds: seq<DriverId>, rs: seq<RideRow>): int {
    if ds == [] then 0 else GrossOver(ds[..|ds| - 1], rs) + Gross(Of(rs, ds[|ds| - 1]))
  }

  lemma LastOrEarlier(ds: seq<DriverId>, d: DriverId)
    requires ds != [] && NoDuplicates(ds)
    ensures var n := |ds| - 1;
            (d in ds <==> d in ds[..n] || d == ds[n]) && !(d in ds[..n] && d == ds[n])
  {
    var n := |ds| - 1;
    assert ds == ds[..n] + [ds[n]];
  }

  lemma {:induction false} GrossOverStep(ds: seq<DriverId>, rs: seq<RideRow>)
    requires rs != [] && NoDuplicates(ds)
    ensures var r := rs[|rs| - 1];
            GrossOver(ds, rs) == GrossOver(ds, rs[..|rs| - 1]) +
              if r.driver.Some? && r.driver.value in ds then Fare(r) else 0
  {
    if ds != [] {
      var n := |ds| - 1;
      GrossOverStep(ds[..n], rs);
      OfStep(rs, ds[n]);
      if rs[|rs| - 1].driver.Some? {
        LastOrEarlier(ds, rs[|rs| - 1].driver.value);
      }
    }
  }

  lemma GrossOverNew(ds: seq<DriverId>, d: DriverId, rs: seq<RideRow>)
    ensures GrossOver(ds + [d], rs) == GrossOver(ds, rs) + Gross(Of(rs, d))
  {
    assert (ds + [d])[..|ds|] == ds;
  }

  /** Grouping loses nothing: the gross over the groups is what the rides earned. */
  lemma {:induction false} GroupingConserves(rs: seq<RideRow>)
    ensures GrossOver(Drivers(rs), rs) == Earned(rs)
  {
    if rs != [] {
      var before, r := rs[..|rs| - 1], rs[|rs| - 1];
      GroupingConserves(before);
      DriversSound(before);
      GrossOverStep(Drivers(before), rs);
      if r.driver.Some? && r.driver.value !in Drivers(before) {
        GrossOverNew(Drivers(before), r.driver.value, rs);
        OfStep(rs, r.driver.value);
        OfNobody(before, r.driver.value);
      }
    }
  }

  // ----- commission

  function CommissionRideByRide(percent: real, rs: seq<RideRow>): int {
    if rs == [] then 0
    else CommissionRideByRide(percent, rs[..|rs| - 1]) + Commission(percent, Fare(rs[|rs| - 1]))
  }

  lemma {:induction false} RideByRideNear(percent: real, rs: seq<RideRow>)
    ensures -(|rs| as real) <= 2.0 * (CommissionRideByRide(percent, rs) as real - Gross(rs) as real * percent / 100.0)
              <= |rs| as real
  {
    if rs != [] {
      var n := |rs| - 1;
      RideByRideNear(percent, rs[..n]);
      var f := Fare(rs[n]) as real * percent / 100.0;
      RoundNear(f);
      assert Gross(rs) as real * percent / 100.0 == Gross(rs[..n]) as real * percent / 100.0 + f;
    }
  }

  /** One commission on the day's gross differs from commissions ride by ride by (n + 1) / 2 paise at most. */
  lemma CommissionSpread(percent: real, rs: seq<RideRow>)
    ensures -(|rs| + 1) <= 2 * (Commission(percent, Gross(rs)) - CommissionRideByRide(percent, rs)) <= |rs| + 1
  {
    RideByRideNear(percent, rs);
    RoundedAgain(Gross(rs) as real * percent / 100.0, CommissionRideByRide(percent, rs), |rs|);
  }

  lemma RoundedAgain(x: real, sum: int, n: nat)
    requires -(n as real) <= 2.0 * (sum as real - x) <= n as real
    ensures -(n + 1) <= 2 * (Round(x) - sum) <= n + 1
  {
    RoundNear(x);
    var d := Round(x) - sum;
    assert -(n as real) - 1.0 <= 2.0 * d as real <= n as real + 1.0;
  }

  /** With a percentage between 0 and 100 neither the commission nor the payout is negative. */
  lemma SharesAreSane(percent: real, gross: int)
    requires 0.0 <= percent <= 100.0 && gross >= 0
    ensures 0 <= Commission(percent, gross) <= gross
  {
    var g := gross as real;
    MulMonotone(g, 0.0, percent);
    MulMonotone(g, percent, 100.0);
    RoundAtLeast(0, g * percent / 100.0);
    RoundMonotone(g * percent / 100.0, g);
  }

  // ----- the sweep

  function RecordFor(percent: real, d: DriverId, rs: seq<RideRow>): Record {
    var g := Gross(rs);
    Record(d, |rs|, g, Commission(percent, g), g - Commission(percent, g))
  }

  function TotalGross(records: seq<Record>): int {
    if records == [] then 0 else TotalGross(records[..|records| - 1]) + records[|records| - 1].gross
  }

  function TotalCommission(records: seq<Record>): int {
    if records == [] then 0 else TotalCommission(records[..|records| - 1]) + records[|records| - 1].commission
  }

  function TotalNet(records: seq<Record>): int {
    if records == [] then 0 else TotalNet(records[..|records| - 1]) + records[|records| - 1].net
  }

  /** Over all records, too, commission and net are the gross. */
  lemma {:induction false} NothingLost(records: seq<Record>)
    requires forall k :: 0 <= k < |records| ==> records[k].commission + records[k].net == records[k].gross
    ensures TotalCommission(records) + TotalNet(records) == TotalGross(records)
  {
    if records != [] {
      NothingLost(records[..|records| - 1]);
    }
  }

  /** If every driver has a wallet, the whole net is credited. */
  lemma {:induction false} AllCredited(records: seq<Record>, wallets: map<DriverId, int>)
    requires forall k :: 0 <= k < |records| ==> records[k].driver in wallets
    ensures Credited(records, wallets) == TotalNet(records)
  {
    if records != [] {
      AllCredited(records[..|records| - 1], wallets);
    }
  }

  /** The money that reached a wallet: a driver without a profile row has none. */
  function Credited(records: seq<Record>, wallets: map<DriverId, int>): int {
    if records == [] then 0
    else
      var r := records[|records| - 1];
      Credited(records[..|records| - 1], wallets) + if r.driver in wallets then r.net else 0
  }

  function Increase(ds: seq<DriverId>, before: map<DriverId, int>, after: map<DriverId, int>): int
    requires before.Keys == after.Keys
  {
    if ds == [] then 0
    else
      var d := ds[|ds| - 1];
      Increase(ds[..|ds| - 1], before, after) + if d in before then after[d] - before[d] else 0
  }

  /** Every record is its driver's, and every amount in it is what the rides come to. */
  predicate Accounts(percent: real, records: seq<Record>, rs: seq<RideRow>, ds: seq<DriverId>) {
    |records| == |ds| && forall k :: 0 <= k < |ds| ==> records[k] == RecordFor(percent, ds[k], Of(rs, ds[k]))
  }

  lemma {:induction false} TotalsAgree(percent: real, records: seq<Record>, rs: seq<RideRow>, ds: seq<DriverId>)
    requires Accounts(percent, records, rs, ds)
    ensures TotalGross(records) == GrossOver(ds, rs)
  {
    if ds != [] {
      var n := |ds| - 1;
      TotalsAgree(percent, records[..n], rs, ds[..n]);
    }
  }

  lemma OneMoreAccount(percent: real, records: seq<Record>, rs: seq<RideRow>, ds: seq<DriverId>, k: nat)
    requires k < |ds| && |records| == k + 1 && Accounts(percent, records[..k], rs, ds[..k])
    requires records[k] == RecordFor(percent, ds[k], Of(rs, ds[k]))
    ensures Accounts(percent, records, rs, ds[..k + 1])
  {
    forall j | 0 <= j < k ensures records[j] == RecordFor(percent, ds[j], Of(rs, ds[j])) {
      assert records[..k][j] == records[j] && ds[..k][j] == ds[j];
    }
  }

  /** The wallets after crediting: each driver's own net, once, and nobody else's balance moves. */
  predicate WalletsCredited(before: map<DriverId, int>, after: map<DriverId, int>, records: seq<Record>) {
    && after.Keys == before.Keys
    && (forall k :: 0 <= k < |records| && records[k].driver in before ==>
          after[records[k].driver] == before[records[k].driver] + records[k].net)
    && (forall d :: d in before && (forall k :: 0 <= k < |records| ==> records[k].driver != d) ==>
          after[d] == before[d])
  }

  /** Crediting one more driver, who was not credited before. */
  lemma CreditOneMore(before: map<DriverId, int>, now: map<DriverId, int>, done: seq<Record>, r: Record)
    requires WalletsCredited(before, now, done)
    requires forall k :: 0 <= k < |done| ==> done[k].driver != r.driver
    ensures WalletsCredited(before, Credit(now, r), done + [r])
  {
    var records := done + [r];
    assert records[|done|] == r;
    if r.driver in before {
      assert now[r.driver] == before[r.driver];
    }
    forall d | d in before && forall k :: 0 <= k < |records| ==> records[k].driver != d
      ensures Credit(now, r)[d] == before[d]
    {
      forall k | 0 <= k < |done| ensures done[k].driver != d { assert records[k] == done[k]; }
    }
  }

  function Credit(wallets: map<DriverId, int>, r: Record): map<DriverId, int> {
    if r.driver in wallets then wallets[r.driver := wallets[r.driver] + r.net] else wallets
  }

  lemma {:induction false} IncreaseIsCredit(
    ds: seq<DriverId>, before: map<DriverId, int>, after: map<DriverId, int>, records: seq<Record>)
    requires |records| == |ds| && forall k :: 0 <= k < |ds| ==> records[k].driver == ds[k]
    requires before.Keys == after.Keys
    requires forall k :: 0 <= k < |records| && records[k].driver in before ==>
               after[records[k].driver] == before[records[k].driver] + records[k].net
    ensures Increase(ds, before, after) == Credited(records, before)
  {
    if ds != [] {
      var n := |ds| - 1;
      IncreaseIsCredit(ds[..n], before, after, records[..n]);
    }
  }

  // ----- the sweep, read off the columns of the table

  /** A ride that was completed, and no earlier than `since`. */
  predicate Completed(r: RideRow, since: Time) {
    r.status == COMPLETED && r.completedAt.Some? && since <= r.completedAt.value
  }

  /** The driver has such a ride. */
  predicate HasRide(table: seq<RideRow>, d: DriverId, since: Time) {
    exists i :: 0 <= i < |table| && table[i].driver == Some(d) && Completed(table[i], since)
  }

  predicate HasRecord(records: seq<Record>, d: DriverId) {
    exists k :: 0 <= k < |records| && records[k].driver == d
  }

  /** How many such rides the driver has. */
  function RidesTaken(table: seq<RideRow>, d: DriverId, since: Time): nat {
    if table == [] then 0
    else
      var r := table[|table| - 1];
      RidesTaken(table[..|table| - 1], d, since) + if r.driver == Some(d) && Completed(r, since) then 1 else 0
  }

  /** What the driver took on them; a ride without a fare counts nothing. */
  function Taken(table: seq<RideRow>, d: DriverId, since: Time): int {
    if table == [] then 0
    else
      var r := table[|table| - 1];
      Taken(table[..|table| - 1], d, since) +
        if r.driver == Some(d) && Completed(r, since) && r.totalFare.Some? then r.totalFare.value else 0
  }

  /** What all drivers took. */
  function AllTaken(table: seq<RideRow>, since: Time): int {
    if table == [] then 0
    else
      var r := table[|table| - 1];
      AllTaken(table[..|table| - 1], since) +
        if r.driver.Some? && Completed(r, since) && r.totalFare.Some? then r.totalFare.value else 0
  }

  lemma SelectedStep(table: seq<RideRow>, since: Time)
    requires table != []
    ensures var before, r := Selected(table[..|table| - 1], since), table[|table| - 1];
            if Completed(r, since) then Selected(table, since) == before + [r] && (before + [r])[..|before|] == before
            else Selected(table, since) == before
  {
  }

  lemma {:induction false} SelectedByColumns(table: seq<RideRow>, d: DriverId, since: Time)
    ensures Gross(Of(Selected(table, since), d)) == Taken(table, d, since)
    ensures |Of(Selected(table, since), d)| == RidesTaken(table, d, since)
    ensures d in Drivers(Selected(table, since)) <==> HasRide(table, d, since)
    ensures Earned(Selected(table, since)) == AllTaken(table, since)
  {
    if table != [] {
      var n := |table| - 1;
      SelectedByColumns(table[..n], d, since);
      SelectedStep(table, since);
      HasRideStep(table, d, since);
      if Completed(table[n], since) {
        OfStep(Selected(table, since), d);
      }
    }
  }

  lemma HasRideStep(table: seq<RideRow>, d: DriverId, since: Time)
    requires table != []
    ensures var n := |table| - 1;
            HasRide(table, d, since) <==>
              HasRide(table[..n], d, since) || (table[n].driver == Some(d) && Completed(table[n], since))
  {
    var n := |table| - 1;
    if HasRide(table[..n], d, since) {
      var i :| 0 <= i < n && table[..n][i].driver == Some(d) && Completed(table[..n][i], since);
      assert table[i].driver == Some(d) && Completed(table[i], since);
    }
    if i :| 0 <= i < n && table[i].driver == Some(d) && Completed(table[i], since) {
      assert table[..n][i] == table[i];
    }
  }

  /** A row that is not completed, or was completed earlier, is as good as absent. */
  lemma {:induction false} OthersDoNotCount(a: seq<RideRow>, r: RideRow, b: seq<RideRow>, since: Time)
    requires r.status != COMPLETED || r.completedAt.None? || r.completedAt.value < since
    ensures Selected(a + [r] + b, since) == Selected(a + b, since)
  {
    if b == [] {
      assert a + [r] + b == a + [r] && a + b == a && (a + [r])[..|a|] == a;
    } else {
      var n := |b| - 1;
      assert (a + [r] + b)[..|a| + 1 + n] == a + [r] + b[..n] && (a + b)[..|a| + n] == a + b[..n];
      OthersDoNotCount(a, r, b[..n], since);
    }
  }

  /** A record of the night, by the columns of the table and the percentage alone. */
  predicate Settled(r: Record, table: seq<RideRow>, since: Time, percent: real) {
    && r.gross == Taken(table, r.driver, since) && r.rides == RidesTaken(table, r.driver, since)
    && r.commission as real - 0.5 <= r.gross as real * percent / 100.0 < r.commission as real + 0.5
    && r.net == r.gross - r.commission
  }

  lemma RecordSettled(percent: real, table: seq<RideRow>, d: DriverId, since: Time)
    ensures Settled(RecordFor(percent, d, Of(Selected(table, since), d)), table, since, percent)
  {
    SelectedByColumns(table, d, since);
    RoundNear(Taken(table, d, since) as real * percent / 100.0);
  }

  /** One record for each driver with a ride, and it is settled. */
  ghost predicate AllSettled(records: seq<Record>, table: seq<RideRow>, since: Time, percent: real) {
    && (forall k :: 0 <= k < |records| ==> Settled(records[k], table, since, percent))
    && (forall d :: HasRecord(records, d) <==> HasRide(table, d, since))
    && (forall j, k :: 0 <= j < k < |records| ==> records[j].driver != records[k].driver)
  }

  lemma AccountsSettle(percent: real, records: seq<Record>, table: seq<RideRow>, since: Time)
    requires Accounts(percent, records, Selected(table, since), Drivers(Selected(table, since)))
    ensures AllSettled(records, table, since, percent)
  {
    var ds := Drivers(Selected(table, since));
    DriversSound(Selected(table, since));
    forall k | 0 <= k < |records| ensures Settled(records[k], table, since, percent) {
      RecordSettled(percent, table, ds[k], since);
    }
    forall d ensures HasRecord(records, d) <==> HasRide(table, d, since) {
      SelectedByColumns(table, d, since);
      assert HasRecord(records, d) <==> d in ds by {
        if d in ds {
          var k :| 0 <= k < |ds| && ds[k] == d;
          assert records[k].driver == d;
        }
      }
    }
  }

  lemma SameAccounts(percent: real, a: seq<Record>, b: seq<Record>, rs: seq<RideRow>, ds: seq<DriverId>)
    requires Accounts(percent, a, rs, ds) && Accounts(percent, b, rs, ds)
    ensures a == b
  {
  }

  lemma SameWallets(
    before: map<DriverId, int>, after: map<DriverId, int>, after': map<DriverId, int>, records: seq<Record>)
    requires WalletsCredited(before, after, records) && WalletsCredited(before, after', records)
    ensures after == after'
  {
    forall d | d in before ensures after[d] == after'[d] {
      if k :| 0 <= k < |records| && records[k].driver == d {
        assert after[records[k].driver] == after'[records[k].driver];
      }
    }
  }

  class SettlementService {
    const enabled: bool
    const commissionPercent: real
    var wallets: map<DriverId, int>   // the wallet balances of the drivers table

    constructor (enabled: bool, commissionPercent: real, wallets: map<DriverId, int>)
      ensures this.enabled == enabled && this.commissionPercent == commissionPercent && this.wallets == wallets
    {
      this.enabled, this.commissionPercent, this.wallets := enabled, commissionPercent, wallets;
    }

    /** The grouping loop: a list per driver, and the drivers in the order the map keeps them. */
    method GroupByDriver(rides: seq<RideRow>) returns (order: seq<DriverId>, byDriver: map<DriverId, seq<RideRow>>)
      ensures order == Drivers(rides)
      ensures byDriver.Keys == set d | d in order
      ensures forall d :: d in byDriver ==> byDriver[d] == Of(rides, d) != []
    {
      order, byDriver := [], map[];
      for i := 0 to |rides|
        invariant order == Drivers(rides[..i])
        invariant byDriver.Keys == set d | d in order
        invariant forall d :: d in byDriver ==> byDriver[d] == Of(rides[..i], d)
      {
        var r := rides[i];
        assert rides[..i + 1][..i] == rides[..i];
        if r.driver.Some? {
          var d := r.driver.value;
          if d !in byDriver {
            OfNobody(rides[..i], d);
            order := order + [d];
          }
          var list := if d in byDriver then byDriver[d] else [];
          byDriver := byDriver[d := list + [r]];
        }
      }
      assert rides[..|rides|] == rides;
      forall d | d in byDriver ensures Of(rides, d) != [] {
        OfNobody(rides, d);
      }
    }

    /**
     One sweep. A driver has a record, and just one, exactly if they have a ride completed since then; it holds
     the number and the fares of just these rides and splits them to the paisa; the gross of all records is
     what was taken on such rides; and each wallet grows by its own net, once. What else there is in the table, or
     was completed earlier, `OthersDoNotCount` shows to change nothing.
     */
    method SettleDaily(table: seq<RideRow>, since: Time) returns (records: seq<Record>)
      modifies this
      ensures !enabled ==> records == [] && wallets == old(wallets)
      ensures enabled ==> Accounts(commissionPercent, records, Selected(table, since), Drivers(Selected(table, since)))
      ensures enabled ==> AllSettled(records, table, since, commissionPercent)
      ensures enabled ==> TotalGross(records) == AllTaken(table, since)
      ensures WalletsCredited(old(wallets), wallets, records)
      ensures TotalCommission(records) + TotalNet(records) == TotalGross(records)
      ensures enabled ==>
                Increase(Drivers(Selected(table, since)), old(wallets), wallets) == Credited(records, old(wallets))
      ensures (forall k :: 0 <= k < |records| ==> records[k].driver in old(wallets)) ==>
                Credited(records, old(wallets)) == TotalNet(records)
    {
      records := [];
      if !enabled {
        return;
      }
      var rides := Selected(table, since);
      var order, byDriver := GroupByDriver(rides);
      DriversSound(rides);
      records := SettleAll(rides, order, byDriver);
      AccountsSettle(commissionPercent, records, table, since);
      TotalsAgree(commissionPercent, records, rides, order);
      GroupingConserves(rides);
      SelectedByColumns(table, 0, since);
      IncreaseIsCredit(order, old(wallets), wallets, records);
      NothingLost(records);
      if forall k :: 0 <= k < |records| ==> records[k].driver in old(wallets) {
        AllCredited(records, old(wallets));
      }
    }

    /** A table without a row that is not completed, or was completed earlier, gives the same records and wallets. */
    method SettlesTheSame(
      other: SettlementService, a: seq<RideRow>, r: RideRow, b: seq<RideRow>, since: Time)
      returns (records: seq<Record>, records': seq<Record>)
      requires other != this && other.enabled == enabled && other.commissionPercent == commissionPercent
      requires other.wallets == wallets
      requires r.status != COMPLETED || r.completedAt.None? || r.completedAt.value < since
      modifies this, other
      ensures records == records' && wallets == other.wallets
    {
      records := SettleDaily(a + [r] + b, since);
      records' := other.SettleDaily(a + b, since);
      OthersDoNotCount(a, r, b, since);
      if enabled {
        SameAccounts(commissionPercent, records, records', Selected(a + b, since), Drivers(Selected(a + b, since)));
      }
      SameWallets(old(wallets), wallets, other.wallets, records);
    }

    /** The crediting loop. */
    method SettleAll(ghost rides: seq<RideRow>, order: seq<DriverId>, byDriver: map<DriverId, seq<RideRow>>)
      returns (records: seq<Record>)
      requires NoDuplicates(order) && forall d :: d in order ==> d in byDriver && byDriver[d] == Of(rides, d)
      modifies this
      ensures Accounts(commissionPercent, records, rides, order)
      ensures WalletsCredited(old(wallets), wallets, records)
    {
      records := [];
      for k := 0 to |order|
        invariant Accounts(commissionPercent, records, rides, order[..k])
        invariant WalletsCredited(old(wallets), wallets, records)
      {
        ghost var now := wallets;
        var r := Settle(order[k], byDriver[order[k]]);
        CreditOneMore(old(wallets), now, records, r);
        records := records + [r];
        OneMoreAccount(commissionPercent, records, rides, order, k);
      }
      assert order[..|order|] == order;
    }

    /** One driver of the crediting loop: sum the fares, read the wallet, add the net. */
    method Settle(d: DriverId, driverRides: seq<RideRow>) returns (r: Record)
      modifies this
      ensures r == RecordFor(commissionPercent, d, driverRides)
      ensures wallets == Credit(old(wallets), r)
    {
      var gross := 0;
      for i := 0 to |driverRides|
        invariant gross == Gross(driverRides[..i])
      {
        assert driverRides[..i + 1][..i] == driverRides[..i];
        gross := gross + Fare(driverRides[i]);
      }
      assert driverRides[..|driverRides|] == driverRides;
      var commission := Commission(commissionPercent, gross);
      var net := gross - commission;
      if d in wallets {
        wallets := wallets[d := wallets[d] + net];
      }
      r := Record(d, |driverRides|, gross, commission, net);
    }
  }
}
