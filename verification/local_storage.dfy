/** The on-device history store (lib/local-storage.ts). `localStorage` is
    modelled as a map from keys to what is stored under them; JSON encoding
    is abstracted, so a stored list reads back as the list that was written. */
module LocalStorage {
  import opened Wrappers
  import opened Model
  import Seqs

  /** The only key this module reads or writes. */
  const ObservationsKey: string := "malerjakt_observations"

  /** Text stored under a key: the JSON of a list of observations, or text that
      `JSON.parse` rejects (the empty string among it). */
  datatype Stored = Saved(observations: seq<Observation>) | Corrupt

  /** Where the code runs: on the server there is no `window` and no
      `localStorage`; in the browser there is a store. */
  datatype Env = Server | Browser(store: map<string, Stored>)

  const NoLocalStorage: string := "localStorage is not defined"

  /** Whether `after` agrees with `before` on every key except the observations key. */
  ghost predicate OtherKeysUnchanged(before: map<string, Stored>, after: map<string, Stored>) {
    forall k :: k != ObservationsKey ==>
      (k in after <==> k in before) && (k in before ==> after[k] == before[k])
  }

  /** `getLocalObservations`: never throws; `[]` on the server, when nothing is
      stored and when the stored text does not parse. */
  function GetLocalObservations(env: Env): (r: seq<Observation>)
    ensures env.Server? ==> r == []
    ensures env.Browser? && ObservationsKey !in env.store ==> r == []
    ensures env.Browser? && ObservationsKey in env.store ==>
              r == match env.store[ObservationsKey] case Saved(s) => s case Corrupt => []
  {
    match env
    case Server => []
    case Browser(store) =>
      if ObservationsKey in store && store[ObservationsKey].Saved? then store[ObservationsKey].observations else []
  }

  /** `saveLocalObservation`: read the list, put the new observation in front,
      write the list back. There is no de-duplication, and unreadable text is
      overwritten. On the server the write throws. */
  function SaveLocalObservation(env: Env, observation: Observation): (r: Result<Env>)
    ensures r.Failure? <==> env.Server?
    ensures r.Success? ==> r.value.Browser? && OtherKeysUnchanged(env.store, r.value.store)
    ensures r.Success? ==> GetLocalObservations(r.value) == [observation] + GetLocalObservations(env)
  {
    match env
    case Server => Failure(NoLocalStorage)
    case Browser(store) =>
      Success(Browser(store[ObservationsKey := Saved([observation] + GetLocalObservations(env))]))
  }

  /** Accepts the observations whose id differs from `id`. */
  function OtherId(id: string): Observation -> bool {
    (o: Observation) => o.id != id
  }

  /** `removeLocalObservation`: keep every observation with another id. */
  function RemoveLocalObservation(env: Env, id: string): (r: Result<Env>)
    ensures r.Failure? <==> env.Server?
    ensures r.Success? ==> r.value.Browser? && OtherKeysUnchanged(env.store, r.value.store)
    ensures r.Success? ==>
              (forall o :: o in GetLocalObservations(r.value) <==> o in GetLocalObservations(env) && o.id != id)
    ensures r.Success? ==>
              forall o :: multiset(GetLocalObservations(r.value))[o]
                          == if o.id != id then multiset(GetLocalObservations(env))[o] else 0
    ensures r.Success? ==> Seqs.IsSubsequence(GetLocalObservations(r.value), GetLocalObservations(env))
  {
    match env
    case Server => Failure(NoLocalStorage)
    case Browser(store) =>
      var kept := Seqs.Filter(GetLocalObservations(env), OtherId(id));
      Seqs.FilterCharacterization(GetLocalObservations(env), OtherId(id));
      Success(Browser(store[ObservationsKey := Saved(kept)]))
  }

  /** `clearLocalObservations`: remove the key. */
  function ClearLocalObservations(env: Env): (r: Result<Env>)
    ensures r.Failure? <==> env.Server?
    ensures r.Success? ==> r.value.Browser? && ObservationsKey !in r.value.store
    ensures r.Success? ==> OtherKeysUnchanged(env.store, r.value.store)
  {
    match env
    case Server => Failure(NoLocalStorage)
    case Browser(store) => Success(Browser(store - {ObservationsKey}))
  }

  /** After clearing, the history reads back empty. */
  lemma ClearThenGetIsEmpty(env: Env)
    requires env.Browser?
    ensures GetLocalObservations(ClearLocalObservations(env).value) == []
  {
  }

  /** Saving never merges: the list grows by exactly one even when the id is
      already stored, and the previous list follows the new entry unchanged. */
  lemma SaveGrowsByOne(env: Env, observation: Observation)
    requires env.Browser?
    ensures var after := GetLocalObservations(SaveLocalObservation(env, observation).value);
            |after| == |GetLocalObservations(env)| + 1
            && after[0] == observation
            && after[1..] == GetLocalObservations(env)
  {
  }

  /** Removing an id that is not stored leaves the list as it was. */
  lemma {:induction false} RemoveAbsentIsIdentity(env: Env, id: string)
    requires env.Browser?
    requires forall o :: o in GetLocalObservations(env) ==> o.id != id
    ensures GetLocalObservations(RemoveLocalObservation(env, id).value) == GetLocalObservations(env)
  {
    Seqs.FilterAll(GetLocalObservations(env), OtherId(id));
  }

  /** Removing an id right after saving it restores the list, provided the id
      was not stored before. */
  lemma {:induction false} RemoveUndoesSave(env: Env, observation: Observation)
    requires env.Browser?
    requires forall o :: o in GetLocalObservations(env) ==> o.id != observation.id
    ensures var saved := SaveLocalObservation(env, observation).value;
            GetLocalObservations(RemoveLocalObservation(saved, observation.id).value) == GetLocalObservations(env)
  {
    var before := GetLocalObservations(env);
    var saved := SaveLocalObservation(env, observation).value;
    assert GetLocalObservations(saved) == [observation] + before;
    assert ([observation] + before)[1..] == before;
    Seqs.FilterAll(before, OtherId(observation.id));
  }
}
