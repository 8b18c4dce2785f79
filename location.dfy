/**
 * The location store of lib/location-context.tsx: the current delivery
 * address and the saved places, loaded from and written back to the
 * browser's local storage under keys derived from the signed-in user.
 */
module Location {

  import opened Wrappers

  /** A saved place; the optional icon is not modelled. */
  datatype Place = Place(id: int, kind: string, address: string)

  const DefaultAddress: string := "123 Main St, Downtown"
  const WorkAddress: string := "456 Business Ave, Tech Park"

  /** The places a new user or guest starts with. */
  const DefaultPlaces: seq<Place> := [Place(1, "Home", DefaultAddress), Place(2, "Work", WorkAddress)]

  const LocationPrefix: string := "foodhub_location_"
  const PlacesPrefix: string := "foodhub_saved_places_"

  /** `userId` is truthy: present and not the empty string. */
  predicate SignedIn(userId: Option<string>)
  {
    userId.Some? && userId.value != ""
  }

  /** The suffix of both keys: the user id, or "guest". */
  function KeySuffix(userId: Option<string>): (r: string)
    ensures SignedIn(userId) ==> r == userId.value
    ensures !SignedIn(userId) ==> r == "guest"
  {
    if SignedIn(userId) then userId.value else "guest"
  }

  /** `storageKeyLocation`. */
  function LocationKey(userId: Option<string>): (r: string)
    ensures r == LocationPrefix + KeySuffix(userId)
  {
    if SignedIn(userId) then "foodhub_location_" + userId.value else "foodhub_location_guest"
  }

  /** `storageKeyPlaces`. */
  function PlacesKey(userId: Option<string>): (r: string)
    ensures r == PlacesPrefix + KeySuffix(userId)
  {
    if SignedIn(userId) then "foodhub_saved_places_" + userId.value else "foodhub_saved_places_guest"
  }

  /** A prefix is cancelled from both sides of an equality. */
  lemma PrefixCancel(p: string, a: string, b: string)
    requires p + a == p + b
    ensures a == b
  {
    assert a == (p + a)[|p|..];
    assert b == (p + b)[|p|..];
  }

  /** Two distinct signed-in users get distinct storage keys, for the location and for the places. */
  lemma KeysPerUser(u: string, v: string)
    requires u != "" && v != "" && u != v
    ensures LocationKey(Some(u)) != LocationKey(Some(v))
    ensures PlacesKey(Some(u)) != PlacesKey(Some(v))
  {
    if LocationKey(Some(u)) == LocationKey(Some(v)) { PrefixCancel(LocationPrefix, u, v); }
    if PlacesKey(Some(u)) == PlacesKey(Some(v)) { PrefixCancel(PlacesPrefix, u, v); }
  }

  /** A location key is never a places key, whichever users they belong to. */
  lemma KeysNeverClash(u: Option<string>, v: Option<string>)
    ensures LocationKey(u) != PlacesKey(v)
  {
    var l := LocationKey(u);
    var p := PlacesKey(v);
    assert l[8] == LocationPrefix[8] == 'l';
    assert p[8] == PlacesPrefix[8] == 's';
  }

  /** A user whose id is "guest" shares the guest's keys. */
  lemma GuestIdSharesGuestKeys()
    ensures LocationKey(Some("guest")) == LocationKey(None)
    ensures PlacesKey(Some("guest")) == PlacesKey(None)
  {
  }

  /** The places after loading: the parsed stored list when there is a non-empty stored text, else the defaults. */
  function LoadedPlaces(stored: Option<string>, parse: string -> seq<Place>): (r: seq<Place>)
    ensures stored.None? || stored.value == "" ==> r == DefaultPlaces
    ensures stored.Some? && stored.value != "" ==> r == parse(stored.value)
  {
    match stored
    case Some(text) => if text != "" then parse(text) else DefaultPlaces
    case None => DefaultPlaces
  }

  /** `localStorage.getItem(key)`: null when the key is absent. */
  function GetItem(storage: map<string, string>, key: string): (r: Option<string>)
    ensures r.None? <==> key !in storage
    ensures r.Some? ==> r.value == storage[key]
  {
    if key in storage then Some(storage[key]) else None
  }

  /**
   * The provider's state: the current address, the saved places and the
   * `locationUpdated` flag, together with the local storage it reads and
   * writes and the signed-in user id.  JSON parsing and printing of the
   * place list are parameters of the operations that need them.
   */
  class LocationStore {
    var userId: Option<string>
    var currentAddress: string
    var savedPlaces: seq<Place>
    var locationUpdated: bool
    var storage: map<string, string>

    /** The state before the first effect has run. */
    constructor (userId: Option<string>, storage: map<string, string>)
      ensures this.userId == userId && this.storage == storage
      ensures currentAddress == DefaultAddress && savedPlaces == [] && !locationUpdated
    {
      this.userId := userId;
      this.storage := storage;
      currentAddress := DefaultAddress;
      savedPlaces := [];
      locationUpdated := false;
    }

    /** The load effect, run on mount and whenever the user changes. */
    method Load(parse: string -> seq<Place>)
      modifies this
      ensures currentAddress ==
        (if LocationKey(userId) in storage && storage[LocationKey(userId)] != ""
         then storage[LocationKey(userId)] else DefaultAddress)
      ensures savedPlaces == LoadedPlaces(GetItem(storage, PlacesKey(userId)), parse)
      ensures userId == old(userId) && storage == old(storage) && locationUpdated == old(locationUpdated)
    {
      var locationKey := LocationKey(userId);
      var placesKey := PlacesKey(userId);
      var savedLocation := GetItem(storage, locationKey);
      if savedLocation.Some? && savedLocation.value != "" {
        currentAddress := savedLocation.value;
      } else {
        currentAddress := DefaultAddress;
      }
      var savedPlacesData := GetItem(storage, placesKey);
      if savedPlacesData.Some? && savedPlacesData.value != "" {
        savedPlaces := parse(savedPlacesData.value);
      } else {
        savedPlaces := DefaultPlaces;
      }
    }

    /** A different user signs in or out; the load effect runs again for the new keys. */
    method ChangeUser(newUserId: Option<string>, parse: string -> seq<Place>)
      modifies this
      ensures userId == newUserId && storage == old(storage) && locationUpdated == old(locationUpdated)
      ensures currentAddress ==
        (if LocationKey(newUserId) in storage && storage[LocationKey(newUserId)] != ""
         then storage[LocationKey(newUserId)] else DefaultAddress)
      ensures savedPlaces == LoadedPlaces(GetItem(storage, PlacesKey(newUserId)), parse)
    {
      userId := newUserId;
      Load(parse);
    }

    /** The effect that writes the current address back. */
    method SaveLocation()
      modifies this`storage
      ensures storage == old(storage)[LocationKey(userId) := currentAddress]
    {
      storage := storage[LocationKey(userId) := currentAddress];
    }

    /** The effect that writes the places back, only when there is at least one. */
    method SavePlaces(stringify: seq<Place> -> string)
      modifies this`storage
      ensures |savedPlaces| > 0 ==> storage == old(storage)[PlacesKey(userId) := stringify(savedPlaces)]
      ensures |savedPlaces| == 0 ==> storage == old(storage)
    {
      if |savedPlaces| > 0 {
        storage := storage[PlacesKey(userId) := stringify(savedPlaces)];
      }
    }

    /** `addSavedPlace(place)` with `Date.now()` passed in as the id. */
    method AddSavedPlace(kind: string, address: string, now: int)
      modifies this`savedPlaces
      ensures savedPlaces == old(savedPlaces) + [Place(now, kind, address)]
    {
      savedPlaces := savedPlaces + [Place(now, kind, address)];
    }

    /** `setCurrentAddress(address)` */
    method SetCurrentAddress(address: string)
      modifies this`currentAddress
      ensures currentAddress == address
    {
      currentAddress := address;
    }

    /** `setLocationUpdated(updated)` */
    method SetLocationUpdated(updated: bool)
      modifies this`locationUpdated
      ensures locationUpdated == updated
    {
      locationUpdated := updated;
    }
  }

  /**
   * Writing the places and loading them again gives them back, when the
   * JSON printer and parser invert each other and the printed text is
   * never empty.
   */
  method SaveThenLoad(store: LocationStore, parse: string -> seq<Place>, stringify: seq<Place> -> string)
    requires |store.savedPlaces| > 0
    requires parse(stringify(store.savedPlaces)) == store.savedPlaces
    requires stringify(store.savedPlaces) != ""
    modifies store
    ensures store.savedPlaces == old(store.savedPlaces)
  {
    store.SavePlaces(stringify);
    store.Load(parse);
  }
}
