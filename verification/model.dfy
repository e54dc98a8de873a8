/** The records the application passes around: an observation of a moth as
    stored on the device and as mapped from the `observations` table. */
module Model {
  import opened Wrappers

  /** Review state of a submission. */
  datatype Status = Pending | Approved | Rejected

  /** Where the device reported the photo was taken. A coordinate is `None`
      when the JavaScript value is `null`, `undefined` or NaN; accuracy is in
      metres. */
  datatype Geolocation = Geolocation(latitude: Option<real>, longitude: Option<real>, accuracy: real)

  /** A device position fix (`position.coords`): plain numbers, in degrees and metres. */
  datatype Coords = Coords(latitude: real, longitude: real, accuracy: real)

  /** One observation. `timestamp` abstracts the ISO date string to the
      instant it denotes, so comparing timestamps compares instants. */
  datatype Observation = Observation(
    id: string,
    imageUrl: string,
    comment: string,
    timestamp: int,
    geolocation: Geolocation,
    status: Status)

  /** Which list an observation on the history screen came from. */
  datatype Source = Local | Remote

  /** An observation tagged with its origin (`{ ...obs, source }`). */
  datatype Entry = Entry(obs: Observation, source: Source) {
    function Id(): string { obs.id }
    function Timestamp(): int { obs.timestamp }
  }

  /** The ids of `s`, in order. */
  function Ids(s: seq<Entry>): (r: seq<string>)
    ensures |r| == |s|
    ensures forall i :: 0 <= i < |s| ==> r[i] == s[i].Id()
  {
    if |s| == 0 then [] else [s[0].Id()] + Ids(s[1..])
  }

  /** No id occurs twice. */
  predicate UniqueIds(s: seq<Entry>) {
    forall i, j :: 0 <= i < j < |s| ==> s[i].Id() != s[j].Id()
  }

  /** Tags every observation of `s` with `source`, keeping order. */
  function Tag(s: seq<Observation>, source: Source): (r: seq<Entry>)
    ensures |r| == |s|
    ensures forall i :: 0 <= i < |s| ==> r[i] == Entry(s[i], source)
  {
    if |s| == 0 then [] else [Entry(s[0], source)] + Tag(s[1..], source)
  }
}
