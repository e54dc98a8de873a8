/** The map screen's coordinate filter (components/map/observation-map.tsx). */
module ObservationMap {
  import opened Wrappers
  import opened Model
  import Seqs

  /** JavaScript truthiness of a coordinate that is neither missing nor NaN:
      everything except 0. */
  predicate Truthy(x: Option<real>) {
    x.Some? && x.value != 0.0
  }

  /** `obs.geolocation && obs.geolocation.latitude && obs.geolocation.longitude
      && !isNaN(…) && !isNaN(…)`. */
  predicate HasMapCoordinates(o: Observation) {
    Truthy(o.geolocation.latitude) && Truthy(o.geolocation.longitude)
  }

  /** The filter the map applies to the fetched list. */
  function MappableObservations(fetched: seq<Observation>): (r: seq<Observation>)
    ensures Seqs.IsSubsequence(r, fetched)
    ensures forall o :: o in r <==> o in fetched && HasMapCoordinates(o)
    ensures forall o :: multiset(r)[o] == if HasMapCoordinates(o) then multiset(fetched)[o] else 0
  {
    Seqs.FilterCharacterization(fetched, HasMapCoordinates);
    Seqs.Filter(fetched, HasMapCoordinates)
  }

  /** `loadObservations`: the fetch is a parameter; when it throws, the list on
      screen is kept. */
  function LoadMapObservations(current: seq<Observation>, fetched: Result<seq<Observation>>): (r: seq<Observation>)
    ensures fetched.Failure? ==> r == current
    ensures fetched.Success? ==> Seqs.IsSubsequence(r, fetched.value)
    ensures fetched.Success? ==> forall o :: o in r <==> o in fetched.value && HasMapCoordinates(o)
    ensures fetched.Success? ==>
              forall o :: multiset(r)[o] == if HasMapCoordinates(o) then multiset(fetched.value)[o] else 0
  {
    match fetched
    case Failure(_) => current
    case Success(data) => MappableObservations(data)
  }

  /** An observation on the equator or on the prime meridian is never shown,
      nor is one whose coordinate is missing or NaN; every other one is. */
  lemma ZeroOrMissingCoordinateHidden(fetched: seq<Observation>, o: Observation)
    requires o in fetched
    ensures o in MappableObservations(fetched) <==>
              o.geolocation.latitude.Some? && o.geolocation.latitude.value != 0.0
              && o.geolocation.longitude.Some? && o.geolocation.longitude.value != 0.0
  {
  }
}
