/** Records held by the fleet dashboard component: vehicles, feed entries,
    the check-in draft, and the seed data the component starts from. */
module FleetTypes {

  datatype Option<+T> = None | Some(value: T)

  /** The values the vehicle `status` field takes. */
  datatype Status = Available | Rented | Maintenance

  /** One fleet unit. `lastService` is set on one seed vehicle only;
      `returnDate` and `customer` belong to rented vehicles and `issue`
      to vehicles in maintenance. An absent field and a field set to
      `undefined` are both `None`. */
  datatype Vehicle = Vehicle(
    id: string,
    make: string,
    model: string,
    year: int,
    licensePlate: string,
    status: Status,
    location: string,
    mileage: int,
    fuelLevel: int,
    lastService: Option<string>,
    dailyRate: int,
    category: string,
    qrCode: string,
    whatsappListed: bool,
    returnDate: Option<string>,
    customer: Option<string>,
    issue: Option<string>
  )

  /** The `type` of a feed entry: 'return', 'maintenance', 'booking', 'checkin'. */
  datatype NotificationType = ReturnKind | MaintenanceKind | BookingKind | CheckinKind

  datatype Notification = Notification(id: int, kind: NotificationType, message: string, time: string, read: bool)

  /** The check-in form. The readings are the raw text of the inputs;
      `condition` and `notes` are edited but never read by any handler. */
  datatype Draft = Draft(vehicleId: string, mileage: string, fuelLevel: string, condition: string, notes: string)

  /** The draft the form starts from and is reset to. */
  const EmptyDraft := Draft("", "", "", "good", "")

  predicate UniqueIds(vs: seq<Vehicle>) {
    forall i, j :: 0 <= i < j < |vs| ==> vs[i].id != vs[j].id
  }

  predicate UniqueQrCodes(vs: seq<Vehicle>) {
    forall i, j :: 0 <= i < j < |vs| ==> vs[i].qrCode != vs[j].qrCode
  }

  /** Rental metadata only on rented vehicles, an issue only on vehicles in maintenance. */
  predicate StatusFieldsConsistent(v: Vehicle) {
    && (v.returnDate.Some? ==> v.status == Rented)
    && (v.customer.Some? ==> v.status == Rented)
    && (v.issue.Some? ==> v.status == Maintenance)
  }

  /** The registry invariant: unique ids and scan codes, consistent optional fields. */
  predicate WellFormed(vs: seq<Vehicle>) {
    && UniqueIds(vs)
    && UniqueQrCodes(vs)
    && forall i :: 0 <= i < |vs| ==> StatusFieldsConsistent(vs[i])
  }

  const SeedVehicles: seq<Vehicle> := [
    Vehicle("V001", "Toyota", "Camry", 2023, "ABC-123", Available, "Downtown Branch",
            15420, 85, Some("2024-05-15"), 45, "Economy", "QR001", true, None, None, None),
    Vehicle("V002", "Honda", "CR-V", 2022, "XYZ-789", Rented, "Airport Branch",
            28750, 60, None, 65, "SUV", "QR002", false, Some("2025-06-22"), Some("John Smith"), None),
    Vehicle("V003", "Ford", "Mustang", 2024, "DEF-456", Maintenance, "Service Center",
            8900, 40, None, 85, "Premium", "QR003", false, None, None, Some("Brake inspection due"))
  ]

  const SeedNotifications: seq<Notification> := [
    Notification(1, ReturnKind, "Vehicle ABC-123 due for return in 2 hours", "10 min ago", false),
    Notification(2, MaintenanceKind, "DEF-456 maintenance completed", "1 hour ago", false),
    Notification(3, BookingKind, "New WhatsApp booking request received", "2 hours ago", false)
  ]

  /** The seed registry satisfies the invariant, and the rented and the
      maintenance vehicle carry their metadata. */
  lemma SeedWellFormed()
    ensures WellFormed(SeedVehicles)
    ensures SeedVehicles[1].status == Rented && SeedVehicles[1].customer.Some? && SeedVehicles[1].returnDate.Some?
    ensures SeedVehicles[2].status == Maintenance && SeedVehicles[2].issue.Some?
    ensures |SeedNotifications| == 3
  {
  }
}
