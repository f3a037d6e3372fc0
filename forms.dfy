/** State shared by the pages that pick a country and then a state (city): the list of states
    offered for the chosen country with its loading flag, and the country/city field pair. */
module Forms {
  import opened Wrappers

  /** `states` and `isLoadingStates` of a page, with the history of the loading flag. */
  class StatesPicker {
    var states: seq<string>
    var isLoadingStates: bool
    var loadingHistory: seq<bool>

    constructor ()
      ensures states == [] && !isLoadingStates && loadingHistory == []
    {
      states, isLoadingStates, loadingHistory := [], false, [];
    }

    /** `fetchStates` once the lookup has run: the flag is raised, the states become the list
        received, or the empty list when the lookup or the call failed, and the `finally`
        block lowers the flag whatever happened. */
    method Load(received: Option<seq<string>>)
      modifies this
      ensures states == received.GetOr([])
      ensures !isLoadingStates
      ensures loadingHistory == old(loadingHistory) + [true, false]
    {
      isLoadingStates := true;
      loadingHistory := loadingHistory + [true];
      match received {
        case Some(list) => states := list;
        case None => states := [];
      }
      isLoadingStates := false;
      loadingHistory := loadingHistory + [false];
    }
  }

  /** The country and city fields of a form. */
  class LocationFields {
    var country: string
    var city: string

    constructor (country0: string, city0: string)
      ensures country == country0 && city == city0
    {
      country, city := country0, city0;
    }

    /** Choosing a country stores it and empties the city, whose choices depend on it. */
    method SelectCountry(value: string)
      modifies this
      ensures country == value && city == ""
    {
      country := value;
      city := "";
    }
  }

  /** A row of the countries table. */
  datatype Country = Country(id: int, iso: string, name: string)

  /** `countries.find(country => country.name === name)`: the first row with that name. */
  function FindByName(countries: seq<Country>, name: string): (r: Option<Country>)
    ensures r.None? <==> forall k :: 0 <= k < |countries| ==> countries[k].name != name
    ensures r.Some? ==> r.value.name == name && exists k :: (0 <= k < |countries| && countries[k] == r.value
                          && forall j :: 0 <= j < k ==> countries[j].name != name)
  {
    if countries == [] then None
    else if countries[0].name == name then Some(countries[0])
    else
      var r := FindByName(countries[1..], name);
      assert r.Some? ==> exists k :: (0 <= k < |countries[1..]| && countries[1..][k] == r.value
                                      && forall j :: 0 <= j < k ==> countries[1..][j].name != name);
      r
  }
}
