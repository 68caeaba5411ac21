/**
 * The notification-preferences screen: a list of topics, each with an
 * email, SMS and push switch, and a flag for unsaved changes.
 */
module Notifications {
  datatype Channel = Email | Sms | Push

  datatype NotificationItem = NotificationItem(
    id: string,
    title: string,  // `label` in the component
    description: string,
    email: bool,
    sms: bool,
    push: bool)

  const InitialNotifications: seq<NotificationItem> := [
    NotificationItem("orders", "Order Updates",
      "Get notified about order confirmation, shipping, and delivery.", true, true, true),
    NotificationItem("promotions", "Promotions & Offers",
      "Receive exclusive offers, coupons, and seasonal deals.", true, false, false),
    NotificationItem("security", "Account Security",
      "Alerts for new logins and password changes.", true, true, true),
    NotificationItem("newsletter", "Car Boss Newsletter",
      "Weekly digest of the hottest car parts and trends.", false, false, false)
  ]

  function Enabled(item: NotificationItem, c: Channel): bool {
    match c
    case Email => item.email
    case Sms => item.sms
    case Push => item.push
  }

  /** `{ ...item, [channel]: !item[channel] }`: one switch flipped, the rest of the item kept. */
  function Flip(item: NotificationItem, c: Channel): (r: NotificationItem)
    ensures Enabled(r, c) == !Enabled(item, c)
    ensures forall d :: d != c ==> Enabled(r, d) == Enabled(item, d)
    ensures r.id == item.id && r.title == item.title && r.description == item.description
  {
    match c
    case Email => item.(email := !item.email)
    case Sms => item.(sms := !item.sms)
    case Push => item.(push := !item.push)
  }

  /** The toggle over the whole list: the items with that id get the switch flipped. */
  function Toggle(prefs: seq<NotificationItem>, id: string, c: Channel): (r: seq<NotificationItem>)
    ensures |r| == |prefs|
    ensures forall i | 0 <= i < |prefs| :: r[i] == if prefs[i].id == id then Flip(prefs[i], c) else prefs[i]
  {
    seq(|prefs|, i requires 0 <= i < |prefs| => if prefs[i].id == id then Flip(prefs[i], c) else prefs[i])
  }

  lemma FlipTwice(item: NotificationItem, c: Channel)
    ensures Flip(Flip(item, c), c) == item
  {
    match c
    case Email =>
    case Sms =>
    case Push =>
  }

  /** Toggling the same switch twice restores the preferences. */
  lemma ToggleTwice(prefs: seq<NotificationItem>, id: string, c: Channel)
    ensures Toggle(Toggle(prefs, id, c), id, c) == prefs
  {
    var once := Toggle(prefs, id, c);
    var twice := Toggle(once, id, c);
    forall i | 0 <= i < |prefs| ensures twice[i] == prefs[i] {
      if prefs[i].id == id {
        FlipTwice(prefs[i], c);
      }
    }
  }

  /** Toggling an id that no item has changes nothing. */
  lemma ToggleAbsent(prefs: seq<NotificationItem>, id: string, c: Channel)
    requires forall i | 0 <= i < |prefs| :: prefs[i].id != id
    ensures Toggle(prefs, id, c) == prefs
  {
  }

  /** Toggles commute, so the final preferences do not depend on the order of clicks. */
  lemma ToggleCommutes(prefs: seq<NotificationItem>, id1: string, c1: Channel, id2: string, c2: Channel)
    ensures Toggle(Toggle(prefs, id1, c1), id2, c2) == Toggle(Toggle(prefs, id2, c2), id1, c1)
  {
    var a := Toggle(Toggle(prefs, id1, c1), id2, c2);
    var b := Toggle(Toggle(prefs, id2, c2), id1, c1);
    forall i | 0 <= i < |prefs| ensures a[i] == b[i] {
      var item := prefs[i];
      if item.id == id1 && item.id == id2 {
        match c1
        case Email => { match c2 { case Email => case Sms => case Push => } }
        case Sms => { match c2 { case Email => case Sms => case Push => } }
        case Push => { match c2 { case Email => case Sms => case Push => } }
      }
    }
  }

  /** The component's state cells. */
  class NotificationSettings {
    var preferences: seq<NotificationItem>
    var hasChanges: bool

    constructor ()
      ensures preferences == InitialNotifications && !hasChanges
    {
      preferences := InitialNotifications;
      hasChanges := false;
    }

    method HandleToggle(id: string, c: Channel)
      modifies this
      ensures preferences == Toggle(old(preferences), id, c)
      ensures hasChanges
    {
      preferences := Toggle(preferences, id, c);
      hasChanges := true;
    }

    /** The save only logs the preferences (returned here) and clears the flag. */
    method HandleSave() returns (saved: seq<NotificationItem>)
      modifies this
      ensures saved == preferences == old(preferences)
      ensures !hasChanges
    {
      saved := preferences;
      hasChanges := false;
    }
  }
}
