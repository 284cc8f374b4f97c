/**
 * The static price tables of the planner page (EcoVoyage/web/script.js:12-73).
 * Every table is an ordered sequence: the page selects a city by its
 * position among the keys of `cities`, and a cuisine, hotel or travel
 * class by its position in the corresponding array.
 */
module Catalog {

  /** An entry with a display name and a price in rupees. */
  datatype Item = Item(name: string, cost: nat)

  /** One key of the `cities` object with its list of attractions. */
  datatype City = City(name: string, attractions: seq<Item>)

  datatype Catalog = Catalog(
    cities: seq<City>,
    cuisines: seq<Item>,
    hotels: seq<Item>,
    travelClasses: seq<Item>)

  /**
   * No displayed name is empty. (The keys of a JavaScript object are distinct
   * by construction, so the model indexes `cities` by position directly.)
   */
  predicate WellFormed(cat: Catalog)
  {
    && (forall i :: 0 <= i < |cat.cities| ==> cat.cities[i].name != "")
    && (forall i :: 0 <= i < |cat.cities| ==> NamesNonEmpty(cat.cities[i].attractions))
    && NamesNonEmpty(cat.cuisines)
    && NamesNonEmpty(cat.hotels)
    && NamesNonEmpty(cat.travelClasses)
  }

  predicate NamesNonEmpty(items: seq<Item>)
  {
    forall i :: 0 <= i < |items| ==> items[i].name != ""
  }

  /** The tables as the page declares them, in declaration order. */
  const Data: Catalog := Catalog(
    [ City("Paris", [Item("Eiffel Tower", 1200), Item("Louvre Museum", 900), Item("Seine River Cruise", 600)]),
      City("London", [Item("British Museum", 600), Item("London Eye", 700)]),
      City("Seoul", [Item("Gyeongbokgung Palace", 800), Item("N Seoul Tower", 700), Item("Myeongdong Shopping Street", 500)]),
      City("Tokyo", [Item("Tokyo Disneyland", 4000), Item("Shinjuku Gyoen Garden", 600), Item("Tokyo Skytree", 1200)]),
      City("Hong Kong", [Item("Victoria Peak", 700), Item("Disneyland Hong Kong", 3800), Item("Star Ferry Ride", 300)]),
      City("Kerala", [Item("Alleppey Houseboat", 2500), Item("Munnar Tea Gardens", 600), Item("Athirappilly Waterfalls", 400)]),
      City("Mexico", [Item("Chichen Itza", 1500), Item("Cancun Beaches", 2000), Item("Mexico City Historic Center", 800)]) ],
    [Item("Local Specialties", 350), Item("Street Food", 200), Item("Fine Dining", 1200)],
    [Item("City Budget Inn", 3000), Item("Grand Royale", 12000)],
    [Item("Economy", 25000), Item("Business", 90000)])

  /** The declared tables satisfy the well-formedness the pricing lemmas rely on. */
  lemma DataWellFormed()
    ensures WellFormed(Data)
    ensures |Data.cities| == 7 && |Data.cuisines| == 3 && |Data.hotels| == 2 && |Data.travelClasses| == 2
  {
  }
}
