/** The dashboard component's state and the handlers that update it. Each
    handler is one atomic update of the fields it sets. */
module FleetDashboard {
  import opened FleetTypes
  import opened NotificationFeed
  import opened FleetRegistry
  import opened CheckIn

  class FleetApp {
    var vehicles: seq<Vehicle>
    var notifications: seq<Notification>
    var draft: Draft
    var scanMode: bool

    /** Unique ids and scan codes, consistent optional vehicle fields,
        and a feed no longer than a push leaves it. */
    ghost predicate Valid()
      reads this
    {
      WellFormed(vehicles) && |notifications| <= FeedBound
    }

    /** The state the component is mounted with. */
    constructor ()
      ensures Valid()
      ensures vehicles == SeedVehicles && notifications == SeedNotifications
      ensures draft == EmptyDraft && !scanMode
    {
      vehicles := SeedVehicles;
      notifications := SeedNotifications;
      draft := EmptyDraft;
      scanMode := false;
      SeedWellFormed();
    }

    /** `handleScan`: a known scan code puts the first matching vehicle's id
        into the draft and closes the scanner; an unknown one changes nothing. */
    method HandleScan(code: string)
      requires Valid()
      modifies this`draft, this`scanMode
      ensures Valid()
      ensures FindByQrCode(vehicles, code).Some? ==>
                draft == old(draft).(vehicleId := FindByQrCode(vehicles, code).value.id) && !scanMode
      ensures FindByQrCode(vehicles, code).None? ==> draft == old(draft) && scanMode == old(scanMode)
    {
      var found := FindByQrCode(vehicles, code);
      if found.Some? {
        draft := draft.(vehicleId := found.value.id);
        scanMode := false;
      }
    }

    /** `handleCheckIn`: rewrites the vehicle with the draft's id, pushes a
        check-in entry (also when no vehicle matched) and resets the draft.
        `stamp` is the value `Date.now()` gives the new entry's id. */
    method HandleCheckIn(stamp: int)
      requires Valid()
      modifies this`vehicles, this`notifications, this`draft
      ensures Valid()
      ensures vehicles == CheckInAll(old(vehicles), old(draft))
      ensures notifications == Push(old(notifications), CheckInNotification(stamp, old(draft).vehicleId))
      ensures draft == EmptyDraft
      ensures UnreadCount(notifications) >= UnreadCount(old(notifications))
    {
      var d := draft;
      CheckInPreservesWellFormed(vehicles, d);
      PushUnread(notifications, CheckInNotification(stamp, d.vehicleId));
      vehicles := CheckInAll(vehicles, d);
      notifications := Push(notifications, CheckInNotification(stamp, d.vehicleId));
      draft := EmptyDraft;
    }

    /** `handleNotificationClick`: marks every entry with that id as read. */
    method HandleNotificationClick(id: int)
      requires Valid()
      modifies this`notifications
      ensures Valid()
      ensures notifications == MarkRead(old(notifications), id)
      ensures UnreadCount(notifications) == UnreadCount(old(notifications)) - UnreadWithId(old(notifications), id)
    {
      MarkReadUnread(notifications, id);
      notifications := MarkRead(notifications, id);
    }

    /** The Cancel button of the check-in form: back to the empty draft. */
    method CancelCheckIn()
      requires Valid()
      modifies this`draft
      ensures Valid()
      ensures draft == EmptyDraft
    {
      draft := EmptyDraft;
    }

    /** The Start Scan and Cancel Scan buttons. */
    method SetScanMode(on: bool)
      requires Valid()
      modifies this`scanMode
      ensures Valid()
      ensures scanMode == on
    {
      scanMode := on;
    }

    /** The mileage input of the check-in form. */
    method EditMileage(text: string)
      requires Valid()
      modifies this`draft
      ensures Valid()
      ensures draft == old(draft).(mileage := text)
    {
      draft := draft.(mileage := text);
    }

    /** The fuel input of the check-in form. */
    method EditFuelLevel(text: string)
      requires Valid()
      modifies this`draft
      ensures Valid()
      ensures draft == old(draft).(fuelLevel := text)
    {
      draft := draft.(fuelLevel := text);
    }

    /** The condition select of the check-in form. */
    method EditCondition(text: string)
      requires Valid()
      modifies this`draft
      ensures Valid()
      ensures draft == old(draft).(condition := text)
    {
      draft := draft.(condition := text);
    }

    /** The notes field of the check-in form. */
    method EditNotes(text: string)
      requires Valid()
      modifies this`draft
      ensures Valid()
      ensures draft == old(draft).(notes := text)
    {
      draft := draft.(notes := text);
    }
  }
}
