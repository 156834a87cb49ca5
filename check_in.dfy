/** The check-in transition: how a submitted draft rewrites the vehicle
    list and which feed entry it produces. */
module CheckIn {
  import opened FleetTypes
  import opened JsNumber
  import opened NotificationFeed
  import opened FleetRegistry

  /** The vehicle after a check-in with draft `d`: available, listed,
      rental and maintenance metadata cleared, readings taken from the
      draft unless they parse to NaN or 0. */
  function CheckInVehicle(v: Vehicle, d: Draft): (w: Vehicle)
    ensures w.status == Available && w.whatsappListed
    ensures w.returnDate.None? && w.customer.None? && w.issue.None?
    ensures StatusFieldsConsistent(w)
    ensures w.mileage == OrIfFalsy(ParseInt(d.mileage), v.mileage)
    ensures w.fuelLevel == OrIfFalsy(ParseInt(d.fuelLevel), v.fuelLevel)
    ensures w.id == v.id && w.qrCode == v.qrCode && w.make == v.make && w.model == v.model
    ensures w.year == v.year && w.licensePlate == v.licensePlate && w.location == v.location
    ensures w.lastService == v.lastService && w.dailyRate == v.dailyRate && w.category == v.category
  {
    v.(status := Available,
       mileage := OrIfFalsy(ParseInt(d.mileage), v.mileage),
       fuelLevel := OrIfFalsy(ParseInt(d.fuelLevel), v.fuelLevel),
       whatsappListed := true,
       returnDate := None,
       customer := None,
       issue := None)
  }

  /** One element of the `map`: the vehicle checked in if it has the
      draft's id, the vehicle as it is otherwise. */
  function CheckInIfDrafted(v: Vehicle, d: Draft): Vehicle {
    if v.id == d.vehicleId then CheckInVehicle(v, d) else v
  }

  /** The `map` over the vehicle list: each vehicle whose id is the
      draft's is checked in, every other one is kept as it is. */
  function CheckInAll(vs: seq<Vehicle>, d: Draft): (r: seq<Vehicle>)
    ensures |r| == |vs|
    ensures forall i :: 0 <= i < |vs| ==> r[i] == CheckInIfDrafted(vs[i], d)
  {
    if vs == [] then []
    else [CheckInIfDrafted(vs[0], d)] + CheckInAll(vs[1..], d)
  }

  /** The feed entry a check-in emits; `stamp` stands for `Date.now()`. */
  function CheckInNotification(stamp: int, vehicleId: string): (n: Notification)
    ensures n.id == stamp && n.kind == CheckinKind && !n.read
    ensures Mentions(n.message, vehicleId)
  {
    var n := Notification(stamp, CheckinKind,
                          "Vehicle " + vehicleId + " checked in and added to WhatsApp catalog",
                          "Just now", false);
    assert n.message[8..][..|vehicleId|] == vehicleId;
    n
  }

  /** `word` occurs somewhere in `text`. */
  predicate Mentions(text: string, word: string) {
    exists i :: 0 <= i <= |text| && word <= text[i..]
  }

  /** Check-in keeps every id and scan code in place, so the registry
      invariant survives it. */
  lemma CheckInPreservesWellFormed(vs: seq<Vehicle>, d: Draft)
    requires WellFormed(vs)
    ensures WellFormed(CheckInAll(vs, d))
  {
    var r := CheckInAll(vs, d);
    assert forall i :: 0 <= i < |vs| ==> r[i].id == vs[i].id && r[i].qrCode == vs[i].qrCode;
  }

  /** A draft whose id matches no vehicle leaves the list as it is. */
  lemma CheckInUnknownId(vs: seq<Vehicle>, d: Draft)
    requires forall i :: 0 <= i < |vs| ==> vs[i].id != d.vehicleId
    ensures CheckInAll(vs, d) == vs
  {
  }

  /** With unique ids, check-in rewrites exactly the one vehicle that has the draft's id. */
  lemma CheckInOne(vs: seq<Vehicle>, d: Draft, k: int)
    requires UniqueIds(vs)
    requires 0 <= k < |vs| && vs[k].id == d.vehicleId
    ensures CheckInAll(vs, d) == vs[..k] + [CheckInVehicle(vs[k], d)] + vs[k + 1..]
  {
    var r := CheckInAll(vs, d);
    var t := vs[..k] + [CheckInVehicle(vs[k], d)] + vs[k + 1..];
    assert |t| == |r|;
    forall i | 0 <= i < |r| ensures r[i] == t[i] {
      if i < k {
        assert t[i] == vs[..k][i] == vs[i];
        assert vs[i].id != vs[k].id;
      } else if i > k {
        assert t[i] == vs[k + 1..][i - k - 1] == vs[i];
        assert vs[k].id != vs[i].id;
      }
    }
  }

  /** A list is its prefix, the element at `k` and its suffix. */
  lemma SplitAt(vs: seq<Vehicle>, k: int)
    requires 0 <= k < |vs|
    ensures vs == vs[..k] + [vs[k]] + vs[k + 1..]
  {
  }

  /** How many vehicles of a list with one vehicle singled out pass a filter. */
  lemma FilterSplice(pre: seq<Vehicle>, v: Vehicle, post: seq<Vehicle>, f: StatusFilter)
    ensures |FilterVehicles(pre + [v] + post, f)|
         == |FilterVehicles(pre, f)| + (if Admits(f, v) then 1 else 0) + |FilterVehicles(post, f)|
  {
    FilterAppend(pre + [v], post, f);
    FilterAppend(pre, [v], f);
    FilterSingle(v, f);
  }

  /** Checking in the vehicle at `k` adds it to the available vehicles
      and takes it out of those with its old status. */
  lemma CheckInStatusCount(vs: seq<Vehicle>, d: Draft, k: int, s: Status)
    requires UniqueIds(vs)
    requires 0 <= k < |vs| && vs[k].id == d.vehicleId
    ensures |FilterVehicles(CheckInAll(vs, d), Only(s))|
         == |FilterVehicles(vs, Only(s))| - (if vs[k].status == s then 1 else 0) + (if s == Available then 1 else 0)
  {
    var w := CheckInVehicle(vs[k], d);
    var pre, post := vs[..k], vs[k + 1..];
    CheckInOne(vs, d, k);
    SplitAt(vs, k);
    FilterSplice(pre, w, post, Only(s));
    FilterSplice(pre, vs[k], post, Only(s));
  }

  lemma {:induction false} RevenueAppend(a: seq<Vehicle>, b: seq<Vehicle>)
    ensures Revenue(a + b) == Revenue(a) + Revenue(b)
  {
    if a == [] {
      assert a + b == b;
    } else {
      assert (a + b)[1..] == a[1..] + b;
      RevenueAppend(a[1..], b);
    }
  }

  /** Revenue of a list with one vehicle singled out. */
  lemma RevenueSplice(pre: seq<Vehicle>, v: Vehicle, post: seq<Vehicle>)
    ensures Revenue(pre + [v] + post)
         == Revenue(pre) + (if v.status == Rented then v.dailyRate else 0) + Revenue(post)
  {
    RevenueAppend(pre + [v], post);
    RevenueAppend(pre, [v]);
    assert [v][1..] == [];
  }

  /** Checking in the vehicle at `k` takes its rate out of the revenue if it was rented. */
  lemma CheckInRevenue(vs: seq<Vehicle>, d: Draft, k: int)
    requires UniqueIds(vs)
    requires 0 <= k < |vs| && vs[k].id == d.vehicleId
    ensures Revenue(CheckInAll(vs, d)) == Revenue(vs) - (if vs[k].status == Rented then vs[k].dailyRate else 0)
  {
    var w := CheckInVehicle(vs[k], d);
    var pre, post := vs[..k], vs[k + 1..];
    CheckInOne(vs, d, k);
    SplitAt(vs, k);
    RevenueSplice(pre, w, post);
    RevenueSplice(pre, vs[k], post);
  }

  lemma {:induction false} ListedAppend(a: seq<Vehicle>, b: seq<Vehicle>)
    ensures ListedCount(a + b) == ListedCount(a) + ListedCount(b)
  {
    if a == [] {
      assert a + b == b;
    } else {
      assert (a + b)[1..] == a[1..] + b;
      ListedAppend(a[1..], b);
    }
  }

  /** Catalog count of a list with one vehicle singled out. */
  lemma ListedSplice(pre: seq<Vehicle>, v: Vehicle, post: seq<Vehicle>)
    ensures ListedCount(pre + [v] + post)
         == ListedCount(pre) + (if v.whatsappListed then 1 else 0) + ListedCount(post)
  {
    ListedAppend(pre + [v], post);
    ListedAppend(pre, [v]);
    assert [v][1..] == [];
  }

  /** Checking in the vehicle at `k` adds it to the WhatsApp catalog count
      unless it was listed already. */
  lemma CheckInListed(vs: seq<Vehicle>, d: Draft, k: int)
    requires UniqueIds(vs)
    requires 0 <= k < |vs| && vs[k].id == d.vehicleId
    ensures ListedCount(CheckInAll(vs, d)) == ListedCount(vs) + (if vs[k].whatsappListed then 0 else 1)
  {
    var w := CheckInVehicle(vs[k], d);
    var pre, post := vs[..k], vs[k + 1..];
    CheckInOne(vs, d, k);
    SplitAt(vs, k);
    ListedSplice(pre, w, post);
    ListedSplice(pre, vs[k], post);
  }

  /** The dashboard statistics after checking in the vehicle at `k`: the
      vehicle list is rewritten and the check-in entry is pushed onto a
      feed within its bound. */
  lemma CheckInStats(vs: seq<Vehicle>, ns: seq<Notification>, d: Draft, k: int, stamp: int)
    requires UniqueIds(vs)
    requires 0 <= k < |vs| && vs[k].id == d.vehicleId
    requires |ns| <= FeedBound
    ensures var before := ComputeStats(vs, ns);
            var after := ComputeStats(CheckInAll(vs, d), Push(ns, CheckInNotification(stamp, d.vehicleId)));
            && after.totalVehicles == before.totalVehicles
            && after.available == before.available + (if vs[k].status == Available then 0 else 1)
            && after.rented == before.rented - (if vs[k].status == Rented then 1 else 0)
            && after.maintenance == before.maintenance - (if vs[k].status == Maintenance then 1 else 0)
            && after.revenue == before.revenue - (if vs[k].status == Rented then vs[k].dailyRate else 0)
            && after.whatsappActive == before.whatsappActive + (if vs[k].whatsappListed then 0 else 1)
            && after.unreadNotifications >= before.unreadNotifications
            && (|ns| < FeedBound ==> after.unreadNotifications == before.unreadNotifications + 1)
  {
    CheckInStatusCount(vs, d, k, Available);
    CheckInStatusCount(vs, d, k, Rented);
    CheckInStatusCount(vs, d, k, Maintenance);
    CheckInRevenue(vs, d, k);
    CheckInListed(vs, d, k);
    PushUnread(ns, CheckInNotification(stamp, d.vehicleId));
  }

  /** A reading text without any decimal digit ("", "abc", "-") keeps the old value. */
  lemma ReadingWithoutDigitsKept(text: string, prior: int)
    requires forall i :: 0 <= i < |text| ==> !IsDigitIn(text[i], 10)
    ensures OrIfFalsy(ParseInt(text), prior) == prior
  {
    ParseIntWithoutDigits(text);
  }

  /** A reading that is the decimal text of `n` stores `n`, negative or
      above 100 alike, except that "0" keeps the old value. */
  lemma ReadingOfNumber(n: int, prior: int)
    ensures OrIfFalsy(ParseInt(Render(n)), prior) == if n == 0 then prior else n
  {
    ParseIntRoundTrip(n);
  }

  /** The return of the rented seed vehicle V002 with readings that are
      the decimal texts of non-zero numbers (such as "29000" and "75"): it
      becomes available with the new readings, its customer and return
      date are gone, it is listed, the other vehicles are untouched, and
      the feed gains one unread check-in entry naming it. */
  lemma ReturnOfRentedVehicle(stamp: int, mileage: int, fuel: int)
    requires mileage != 0 && fuel != 0
    ensures var d := EmptyDraft.(vehicleId := "V002", mileage := Render(mileage), fuelLevel := Render(fuel));
            var vs := CheckInAll(SeedVehicles, d);
            var ns := Push(SeedNotifications, CheckInNotification(stamp, "V002"));
            && FindByQrCode(SeedVehicles, "QR002") == Some(SeedVehicles[1])
            && vs[1].status == Available && vs[1].mileage == mileage && vs[1].fuelLevel == fuel
            && vs[1].customer.None? && vs[1].returnDate.None? && vs[1].whatsappListed
            && vs[0] == SeedVehicles[0] && vs[2] == SeedVehicles[2]
            && ns[0].kind == CheckinKind && Mentions(ns[0].message, "V002")
            && UnreadCount(ns) == UnreadCount(SeedNotifications) + 1
  {
    SeedWellFormed();
    FindOwnQrCode(SeedVehicles, 1);
    ParseIntRoundTrip(mileage);
    ParseIntRoundTrip(fuel);
    PushUnread(SeedNotifications, CheckInNotification(stamp, "V002"));
  }

  /** A check-in of the maintenance vehicle V003 with mileage "abc" keeps its mileage 8900. */
  lemma NonNumericMileageKept()
    ensures var d := EmptyDraft.(vehicleId := "V003", mileage := "abc");
            CheckInAll(SeedVehicles, d)[2].mileage == 8900
  {
    var d := EmptyDraft.(vehicleId := "V003", mileage := "abc");
    assert ParseInt("abc") == None by { ParseIntWithoutDigits("abc"); }
    assert CheckInAll(SeedVehicles, d)[2] == CheckInVehicle(SeedVehicles[2], d) by {
      assert SeedVehicles[2].id == d.vehicleId;
    }
  }
}
