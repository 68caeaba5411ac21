/**
 * The profile card of the vehicle in focus: which garage vehicle it shows,
 * its picture, its nickname, and the active/inactive switch.
 */
module ActiveVehicleCard {
  import opened Wrappers
  import Js

  /** A garage entry, with the fields the card reads. */
  datatype GarageVehicle = GarageVehicle(id: int, nickname: Option<string>, model_name: Option<string>, is_active: bool)

  const CarImages: seq<string> := ["/Cars/Car 1.png", "/Cars/Car 2.png", "/Cars/Car 3.png"]

  /** The active vehicle if there is one, else the first in the garage, else none. */
  function DisplayVehicle(active: Option<GarageVehicle>, garage: seq<GarageVehicle>): (r: Option<GarageVehicle>)
    ensures active.Some? ==> r == active
    ensures active.None? && garage != [] ==> r == Some(garage[0])
    ensures r.None? <==> active.None? && garage == []
  {
    if active.Some? then active else if |garage| > 0 then Some(garage[0]) else None
  }

  /**
   * `CAR_IMAGES[id % 3]`, or the first picture with no vehicle. JavaScript's
   * remainder keeps the sign of the id, so a negative id not divisible by
   * three indexes outside the list and gives no picture.
   */
  function VehicleImage(v: Option<GarageVehicle>): (r: Option<string>)
    ensures v.None? ==> r == Some(CarImages[0])
    ensures v.Some? && v.value.id >= 0 ==> r == Some(CarImages[v.value.id % 3])
    ensures r.Some? ==> r.value in CarImages
    ensures v.Some? && v.value.id < 0 && v.value.id % 3 != 0 ==> r.None?
  {
    if v.None? then Some(CarImages[0])
    else
      var index := Js.Rem(v.value.id, |CarImages|);
      Js.RemBounds(v.value.id, |CarImages|);
      if 0 <= index then Some(CarImages[index]) else None
  }

  /** The same id always gets the same picture, and ids three apart share one. */
  lemma ImageRepeatsEveryThree(v: GarageVehicle)
    requires v.id >= 0
    ensures VehicleImage(Some(v)) == VehicleImage(Some(v.(id := v.id + 3)))
  {
  }

  /**
   * The argument of `switchActiveVehicle` the switch sends: -1 to deactivate
   * an active vehicle, the vehicle's own id to activate it; no call without
   * a vehicle.
   */
  function ToggleRequest(v: Option<GarageVehicle>): (r: Option<int>)
    ensures v.None? <==> r.None?
    ensures v.Some? && v.value.is_active ==> r == Some(-1)
    ensures v.Some? && !v.value.is_active ==> r == Some(v.value.id)
  {
    if v.None? then None else if v.value.is_active then Some(-1) else Some(v.value.id)
  }

  /** `nickname || model_name || "My Vehicle"`. */
  function NicknameOf(v: GarageVehicle): (r: string)
    ensures r != ""
    ensures Js.Truthy(v.nickname) ==> r == v.nickname.value
    ensures !Js.Truthy(v.nickname) && Js.Truthy(v.model_name) ==> r == v.model_name.value
    ensures !Js.Truthy(v.nickname) && !Js.Truthy(v.model_name) ==> r == "My Vehicle"
  {
    Js.OrElse(v.nickname, Js.OrElse(v.model_name, "My Vehicle"))
  }

  /** The card's state cells, and the store calls it has made. */
  class Card {
    var isEditing: bool
    var nickname: string
    var switchRequests: seq<int>

    constructor ()
      ensures !isEditing && nickname == "" && switchRequests == []
    {
      isEditing := false;
      nickname := "";
      switchRequests := [];
    }

    /** The effect run when the displayed vehicle changes. */
    method SyncNickname(display: Option<GarageVehicle>)
      modifies this
      ensures nickname == if display.Some? then NicknameOf(display.value) else old(nickname)
      ensures isEditing == old(isEditing) && switchRequests == old(switchRequests)
    {
      if display.Some? {
        nickname := NicknameOf(display.value);
      }
    }

    method HandleToggleActive(display: Option<GarageVehicle>)
      modifies this
      ensures switchRequests == old(switchRequests) + (if display.Some? then [ToggleRequest(display).value] else [])
      ensures isEditing == old(isEditing) && nickname == old(nickname)
    {
      var request := ToggleRequest(display);
      if request.Some? {
        switchRequests := switchRequests + [request.value];
      }
    }

    method StartEditing()
      modifies this
      ensures isEditing && nickname == old(nickname) && switchRequests == old(switchRequests)
    {
      isEditing := true;
    }

    method EditNickname(value: string)
      modifies this
      ensures nickname == value && isEditing == old(isEditing) && switchRequests == old(switchRequests)
    {
      nickname := value;
    }

    /** Leaves edit mode; the nickname is kept locally and nothing is sent to the store. */
    method HandleSaveNickname()
      modifies this
      ensures !isEditing && nickname == old(nickname) && switchRequests == old(switchRequests)
    {
      isEditing := false;
    }
  }
}
