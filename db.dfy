/**
 * The mock database of lib/db.ts: read-only queries over the static
 * restaurant list.  The restaurant queries return restaurants reshaped with
 * the two database-style columns `delivery_time` and `is_closed`; the menu
 * query returns the restaurant's menu as it is.
 */
module RestaurantDb {

  import opened Wrappers

  /** A dish, with the fields the model uses; the remaining fields of the source's `FoodItem` are not modelled. */
  datatype MenuItem = MenuItem(id: string, name: string, price: int)

  /** The fields of a static restaurant entry that the model uses. */
  datatype Restaurant = Restaurant(
    id: string,
    slug: string,
    name: string,
    cuisine: string,
    deliveryTime: string,
    isClosed: bool,
    menu: seq<MenuItem>)

  /** `{ ...r, delivery_time: r.deliveryTime, is_closed: r.isClosed ? 1 : 0 }` */
  datatype Row = Row(restaurant: Restaurant, delivery_time: string, is_closed: int)

  function Reshape(r: Restaurant): (row: Row)
    ensures row.restaurant == r
    ensures row.delivery_time == r.deliveryTime
    ensures row.is_closed == 0 || row.is_closed == 1
    ensures row.is_closed == 1 <==> r.isClosed
  {
    Row(r, r.deliveryTime, if r.isClosed then 1 else 0)
  }

  /** `restaurantDb.getAll()` */
  function GetAll(rs: seq<Restaurant>): (rows: seq<Row>)
    ensures |rows| == |rs|
    ensures forall i :: 0 <= i < |rs| ==> rows[i] == Reshape(rs[i])
  {
    if rs == [] then [] else [Reshape(rs[0])] + GetAll(rs[1..])
  }

  // ---------------------------------------------------------------------
  // First match (`Array.prototype.find`)
  // ---------------------------------------------------------------------

  /** `staticRestaurants.find(p)`: the first restaurant satisfying `p`, or none. */
  function FindFirst(rs: seq<Restaurant>, p: Restaurant -> bool): (r: Option<Restaurant>)
    ensures r.None? <==> forall i :: 0 <= i < |rs| ==> !p(rs[i])
    ensures r.Some? ==> exists i :: 0 <= i < |rs| && rs[i] == r.value && p(rs[i])
                          && forall j :: 0 <= j < i ==> !p(rs[j])
  {
    if rs == [] then None
    else if p(rs[0]) then Some(rs[0])
    else
      var r := FindFirst(rs[1..], p);
      assert r.Some? ==> exists i :: 1 <= i < |rs| && rs[i] == r.value && p(rs[i])
                          && forall j :: 0 <= j < i ==> !p(rs[j]) by {
        if r.Some? {
          var i :| 0 <= i < |rs[1..]| && rs[1..][i] == r.value && p(rs[1..][i])
                   && forall j :: 0 <= j < i ==> !p(rs[1..][j]);
          assert rs[i + 1] == r.value;
          forall j | 0 <= j < i + 1 ensures !p(rs[j]) {
            if j > 0 { assert rs[j] == rs[1..][j - 1]; }
          }
        }
      }
      r
  }

  /** `restaurantDb.getBySlug(slug)`: null when nothing matches, else the first match reshaped. */
  function GetBySlug(rs: seq<Restaurant>, slug: string): (row: Option<Row>)
    ensures row.None? <==> forall i :: 0 <= i < |rs| ==> rs[i].slug != slug
    ensures row.Some? ==> exists i :: 0 <= i < |rs| && row.value == Reshape(rs[i]) && rs[i].slug == slug
                            && forall j :: 0 <= j < i ==> rs[j].slug != slug
  {
    match FindFirst(rs, (r: Restaurant) => r.slug == slug)
    case None => None
    case Some(r) => Some(Reshape(r))
  }

  /** `restaurantDb.getById(id)`: null when nothing matches, else the first match reshaped. */
  function GetById(rs: seq<Restaurant>, id: string): (row: Option<Row>)
    ensures row.None? <==> forall i :: 0 <= i < |rs| ==> rs[i].id != id
    ensures row.Some? ==> exists i :: 0 <= i < |rs| && row.value == Reshape(rs[i]) && rs[i].id == id
                            && forall j :: 0 <= j < i ==> rs[j].id != id
  {
    match FindFirst(rs, (r: Restaurant) => r.id == id)
    case None => None
    case Some(r) => Some(Reshape(r))
  }

  /** `menuDb.getByRestaurant(restaurantId)`: the menu of the first restaurant with that id, or none. */
  function MenuOf(rs: seq<Restaurant>, restaurantId: string): (items: seq<MenuItem>)
    ensures (forall i :: 0 <= i < |rs| ==> rs[i].id != restaurantId) ==> items == []
    ensures forall i :: (0 <= i < |rs| && rs[i].id == restaurantId
              && forall j :: 0 <= j < i ==> rs[j].id != restaurantId) ==> items == rs[i].menu
  {
    match FindFirst(rs, (r: Restaurant) => r.id == restaurantId)
    case None => []
    case Some(r) => r.menu
  }

  // ---------------------------------------------------------------------
  // Case-insensitive substring search
  // ---------------------------------------------------------------------

  /** `toLowerCase` on ASCII letters; every other character is kept. */
  function LowerChar(c: char): char
  {
    if 'A' <= c <= 'Z' then (c as int + 32) as char else c
  }

  function Lower(s: string): (r: string)
    ensures |r| == |s|
    ensures forall i :: 0 <= i < |s| ==> r[i] == LowerChar(s[i])
  {
    if s == [] then [] else [LowerChar(s[0])] + Lower(s[1..])
  }

  /** Lower-casing twice is lower-casing once. */
  lemma LowerIdempotent(s: string)
    ensures Lower(Lower(s)) == Lower(s)
  {
  }

  /** `needle` occurs in `hay` starting at position `i`. */
  ghost predicate OccursAt(needle: string, hay: string, i: nat)
  {
    i + |needle| <= |hay| && hay[i..i + |needle|] == needle
  }

  /** `needle` occurs in `hay` at some position. */
  ghost predicate OccursIn(needle: string, hay: string)
  {
    exists i: nat :: OccursAt(needle, hay, i)
  }

  /** `String.prototype.includes`, one candidate position at a time. */
  function Includes(hay: string, needle: string): (b: bool)
    ensures b <==> OccursIn(needle, hay)
  {
    if |needle| <= |hay| && hay[..|needle|] == needle then
      assert OccursAt(needle, hay, 0);
      true
    else if |hay| <= |needle| then
      false
    else
      var b := Includes(hay[1..], needle);
      assert b <==> OccursIn(needle, hay) by {
        if b {
          var i: nat :| OccursAt(needle, hay[1..], i);
          assert hay[i + 1..i + 1 + |needle|] == hay[1..][i..i + |needle|];
          assert OccursAt(needle, hay, i + 1);
        }
        if OccursIn(needle, hay) {
          var i: nat :| OccursAt(needle, hay, i);
          assert i != 0;
          assert hay[1..][i - 1..i - 1 + |needle|] == hay[i..i + |needle|];
          assert OccursAt(needle, hay[1..], i - 1);
        }
      }
      b
  }

  /** The empty query occurs in every string. */
  lemma EmptyOccurs(hay: string)
    ensures Includes(hay, "")
  {
  }

  /** The search filter: the lower-cased query occurs in the lower-cased name or cuisine. */
  function Matches(r: Restaurant, lowerQuery: string): (b: bool)
    ensures b <==> OccursIn(lowerQuery, Lower(r.name)) || OccursIn(lowerQuery, Lower(r.cuisine))
  {
    Includes(Lower(r.name), lowerQuery) || Includes(Lower(r.cuisine), lowerQuery)
  }

  /** `staticRestaurants.filter(...)`: the restaurants that match, in list order. */
  function Filter(rs: seq<Restaurant>, lowerQuery: string): (r: seq<Restaurant>)
    ensures |r| <= |rs|
    ensures forall i :: 0 <= i < |r| ==> Matches(r[i], lowerQuery)
  {
    if rs == [] then []
    else if Matches(rs[0], lowerQuery) then [rs[0]] + Filter(rs[1..], lowerQuery)
    else Filter(rs[1..], lowerQuery)
  }

  /** `restaurantDb.search(query)` */
  function Search(rs: seq<Restaurant>, query: string): (rows: seq<Row>)
    ensures |rows| <= |rs|
    ensures forall i :: 0 <= i < |rows| ==>
      Matches(rows[i].restaurant, Lower(query)) && rows[i] == Reshape(rows[i].restaurant)
  {
    GetAll(Filter(rs, Lower(query)))
  }

  /** A restaurant survives the filter exactly when it is listed and its name or cuisine contains the query. */
  lemma {:induction false} FilterMembers(rs: seq<Restaurant>, lowerQuery: string, r: Restaurant)
    ensures r in Filter(rs, lowerQuery) <==> r in rs && Matches(r, lowerQuery)
  {
    if rs != [] {
      FilterMembers(rs[1..], lowerQuery, r);
      assert rs == [rs[0]] + rs[1..];
    }
  }

  /** Filtering a concatenation filters each part, so the survivors keep the list's order. */
  lemma {:induction false} FilterAppend(a: seq<Restaurant>, b: seq<Restaurant>, lowerQuery: string)
    ensures Filter(a + b, lowerQuery) == Filter(a, lowerQuery) + Filter(b, lowerQuery)
  {
    if a == [] {
      assert a + b == b;
    } else {
      assert (a + b)[1..] == a[1..] + b;
      FilterAppend(a[1..], b, lowerQuery);
    }
  }

  /** Every restaurant matches the empty query. */
  lemma {:induction false} FilterEmptyQuery(rs: seq<Restaurant>)
    ensures Filter(rs, "") == rs
  {
    if rs != [] {
      EmptyOccurs(Lower(rs[0].name));
      FilterEmptyQuery(rs[1..]);
    }
  }

  /** The search result, row by row: exactly the matching restaurants, reshaped. */
  lemma SearchMembers(rs: seq<Restaurant>, query: string, row: Row)
    ensures row in Search(rs, query) <==>
      row.restaurant in rs && Matches(row.restaurant, Lower(query)) && row == Reshape(row.restaurant)
  {
    var f := Filter(rs, Lower(query));
    FilterMembers(rs, Lower(query), row.restaurant);
    if row in Search(rs, query) {
      var i :| 0 <= i < |f| && GetAll(f)[i] == row;
    }
  }

  /** An empty query returns every restaurant, as `getAll` does. */
  lemma SearchEmpty(rs: seq<Restaurant>)
    ensures Search(rs, "") == GetAll(rs)
  {
    FilterEmptyQuery(rs);
  }

  /** The search is case-insensitive in the query. */
  lemma SearchCaseInsensitive(rs: seq<Restaurant>, query: string)
    ensures Search(rs, Lower(query)) == Search(rs, query)
  {
    LowerIdempotent(query);
  }

  /** Searching a concatenation searches each part, so results keep the static list's order. */
  lemma SearchAppend(a: seq<Restaurant>, b: seq<Restaurant>, query: string)
    ensures Search(a + b, query) == Search(a, query) + Search(b, query)
  {
    FilterAppend(a, b, Lower(query));
    GetAllAppend(Filter(a, Lower(query)), Filter(b, Lower(query)));
  }

  lemma GetAllAppend(a: seq<Restaurant>, b: seq<Restaurant>)
    ensures GetAll(a + b) == GetAll(a) + GetAll(b)
  {
  }
}
