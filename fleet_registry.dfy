/** Queries over the vehicle list: the status filter, the lookup by scan
    code, and the dashboard statistics. */
module FleetRegistry {
  import opened FleetTypes
  import NotificationFeed

  /** The filter selection: 'all' or one status value. */
  datatype StatusFilter = All | Only(status: Status)

  predicate Admits(f: StatusFilter, v: Vehicle) {
    f.All? || v.status == f.status
  }

  /** `filteredVehicles`: the whole list for `All`, otherwise the vehicles
      with that status in their original order. */
  function FilterVehicles(vs: seq<Vehicle>, f: StatusFilter): (r: seq<Vehicle>)
    ensures f.All? ==> r == vs
    ensures |r| <= |vs|
  {
    if f.All? || vs == [] then vs
    else (if vs[0].status == f.status then [vs[0]] else []) + FilterVehicles(vs[1..], f)
  }

  /** A vehicle is in the filtered list exactly when it is in the list
      and has the selected status. */
  lemma {:induction false} FilterMembership(vs: seq<Vehicle>, f: StatusFilter, v: Vehicle)
    ensures v in FilterVehicles(vs, f) <==> v in vs && Admits(f, v)
  {
    if f.Only? && vs != [] {
      FilterMembership(vs[1..], f, v);
      assert vs == [vs[0]] + vs[1..];
    }
  }

  /** Filtering a concatenation filters each part and keeps their order. */
  lemma {:induction false} FilterAppend(a: seq<Vehicle>, b: seq<Vehicle>, f: StatusFilter)
    ensures FilterVehicles(a + b, f) == FilterVehicles(a, f) + FilterVehicles(b, f)
  {
    if f.Only? {
      if a == [] {
        assert a + b == b;
      } else {
        var c := a + b;
        assert c[0] == a[0] && c[1..] == a[1..] + b;
        FilterAppend(a[1..], b, f);
        FilterCons(c, f);
        FilterCons(a, f);
      }
    }
  }

  /** One step of the filter on a non-empty list. */
  lemma FilterCons(vs: seq<Vehicle>, f: StatusFilter)
    requires vs != [] && f.Only?
    ensures FilterVehicles(vs, f) == (if vs[0].status == f.status then [vs[0]] else []) + FilterVehicles(vs[1..], f)
  {
  }

  /** A single vehicle passes the filter exactly when it has the status. */
  lemma FilterSingle(v: Vehicle, f: StatusFilter)
    ensures FilterVehicles([v], f) == if Admits(f, v) then [v] else []
  {
    if f.Only? {
      assert [v][1..] == [];
    }
  }

  /** A status with no vehicle yields the empty list, not an error. */
  lemma {:induction false} FilterNoMatch(vs: seq<Vehicle>, s: Status)
    requires forall i :: 0 <= i < |vs| ==> vs[i].status != s
    ensures FilterVehicles(vs, Only(s)) == []
  {
    if vs != [] {
      assert vs[0].status != s;
      FilterNoMatch(vs[1..], s);
    }
  }

  /** Every vehicle has exactly one of the three statuses. */
  lemma {:induction false} StatusPartition(vs: seq<Vehicle>)
    ensures |FilterVehicles(vs, Only(Available))| + |FilterVehicles(vs, Only(Rented))|
          + |FilterVehicles(vs, Only(Maintenance))| == |vs|
  {
    if vs != [] {
      StatusPartition(vs[1..]);
    }
  }

  /** `find` by `qrCode`: the first vehicle with that scan code, if any. */
  function FindByQrCode(vs: seq<Vehicle>, code: string): (r: Option<Vehicle>)
    ensures r.None? <==> forall i :: 0 <= i < |vs| ==> vs[i].qrCode != code
    ensures r.Some? ==> exists i :: 0 <= i < |vs| && vs[i] == r.value && FirstWithQrCode(vs, code, i)
  {
    if vs == [] then None
    else if vs[0].qrCode == code then
      assert FirstWithQrCode(vs, code, 0);
      Some(vs[0])
    else
      var r := FindByQrCode(vs[1..], code);
      if r.Some? then
        var i :| 0 <= i < |vs| - 1 && vs[1..][i] == r.value && FirstWithQrCode(vs[1..], code, i);
        assert FirstWithQrCode(vs, code, i + 1);
        r
      else r
  }

  /** Position `i` holds the first vehicle whose scan code is `code`. */
  predicate FirstWithQrCode(vs: seq<Vehicle>, code: string, i: int) {
    && 0 <= i < |vs|
    && vs[i].qrCode == code
    && forall j :: 0 <= j < i ==> vs[j].qrCode != code
  }

  /** With unique scan codes, looking up a vehicle's code finds that vehicle. */
  lemma FindOwnQrCode(vs: seq<Vehicle>, k: int)
    requires UniqueQrCodes(vs)
    requires 0 <= k < |vs|
    ensures FindByQrCode(vs, vs[k].qrCode) == Some(vs[k])
  {
    var r := FindByQrCode(vs, vs[k].qrCode);
    var i :| 0 <= i < |vs| && vs[i] == r.value && FirstWithQrCode(vs, vs[k].qrCode, i);
    assert i == k;
  }

  /** The `reduce` of the dashboard: the daily rates of the rented vehicles. */
  function Revenue(vs: seq<Vehicle>): (r: int)
    ensures (forall i :: 0 <= i < |vs| ==> vs[i].status != Rented) ==> r == 0
  {
    if vs == [] then 0 else (if vs[0].status == Rented then vs[0].dailyRate else 0) + Revenue(vs[1..])
  }

  /** Sum of the daily rates of all the given vehicles. */
  function SumRates(vs: seq<Vehicle>): int {
    if vs == [] then 0 else vs[0].dailyRate + SumRates(vs[1..])
  }

  /** Revenue is the sum of daily rates over exactly the rented vehicles. */
  lemma {:induction false} RevenueOfRented(vs: seq<Vehicle>)
    ensures Revenue(vs) == SumRates(FilterVehicles(vs, Only(Rented)))
  {
    if vs != [] {
      RevenueOfRented(vs[1..]);
      if vs[0].status == Rented {
        var rest := FilterVehicles(vs[1..], Only(Rented));
        assert ([vs[0]] + rest)[1..] == rest;
      } else {
        assert [] + FilterVehicles(vs[1..], Only(Rented)) == FilterVehicles(vs[1..], Only(Rented));
      }
    }
  }

  /** Number of vehicles listed in the WhatsApp catalog. */
  function ListedCount(vs: seq<Vehicle>): (n: nat)
    ensures n <= |vs|
    ensures n == |vs| <==> forall i :: 0 <= i < |vs| ==> vs[i].whatsappListed
  {
    if vs == [] then 0 else (if vs[0].whatsappListed then 1 else 0) + ListedCount(vs[1..])
  }

  /** The `stats` record shown on the dashboard. */
  datatype Stats = Stats(
    totalVehicles: nat,
    available: nat,
    rented: nat,
    maintenance: nat,
    revenue: int,
    whatsappActive: nat,
    unreadNotifications: nat)

  /** `stats`, recomputed from the current vehicles and notifications. */
  function ComputeStats(vs: seq<Vehicle>, ns: seq<Notification>): (st: Stats)
    ensures st.totalVehicles == |vs|
    ensures st.available + st.rented + st.maintenance == st.totalVehicles
    ensures st.revenue == SumRates(FilterVehicles(vs, Only(Rented)))
    ensures st.whatsappActive <= st.totalVehicles
    ensures st.unreadNotifications <= |ns|
    ensures st.unreadNotifications == 0 <==> forall i :: 0 <= i < |ns| ==> ns[i].read
  {
    StatusPartition(vs);
    RevenueOfRented(vs);
    Stats(
      |vs|,
      |FilterVehicles(vs, Only(Available))|,
      |FilterVehicles(vs, Only(Rented))|,
      |FilterVehicles(vs, Only(Maintenance))|,
      Revenue(vs),
      ListedCount(vs),
      NotificationFeed.UnreadCount(ns))
  }
}
