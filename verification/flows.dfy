/** Properties that follow an observation through several parts of the app:
    from the gallery form to the device history, and from the upload form
    fields back through the database row to the map and the history badge. */
module Flows {
  import opened Wrappers
  import opened Model
  import Validation
  import LocalStorage
  import Gallery
  import History
  import Api
  import ObservationMap

  /** After a successful submission, the offline history shows the new
      observation first, as a local entry with the sanitised comment, provided
      nothing stored is newer than the submission time. */
  lemma SubmittedObservationHeadsOfflineHistory(
    form: Gallery.Form, env: LocalStorage.Env, now: int, answer: Gallery.UploadReply,
    fetched: Result<seq<Observation>>)
    requires env.Browser? && Gallery.ValidateForm(form).ok && answer.ok
    requires forall o :: o in LocalStorage.GetLocalObservations(env) ==> o.timestamp <= now
    ensures var after := Gallery.HandleSubmit(form, env, now, Success(answer)).env;
            var shown := History.LoadHistory(LocalStorage.GetLocalObservations(after), false, fetched);
            && |shown| > 0
            && shown[0].source == Local
            && shown[0].obs.id == answer.id
            && shown[0].obs.comment == Validation.SanitizeInput(form.comment)
            && shown[0].obs.status == Pending
  {
    var before := LocalStorage.GetLocalObservations(env);
    var saved := LocalStorage.GetLocalObservations(Gallery.HandleSubmit(form, env, now, Success(answer)).env);
    assert saved[1..] == before;
    forall i | 0 <= i < |saved|
      ensures saved[i].timestamp <= saved[0].timestamp
    {
      if i > 0 {
        assert saved[i] == before[i - 1];
      }
    }
    History.OfflineNewestShownFirst(saved, fetched);
  }

  /** The row an upload stores: its coordinates are what the route parses
      from the form fields. */
  predicate StoredFromFields(form: Api.UploadForm, row: Api.Row) {
    row.latitude == Api.FieldNumber(form.latitude)
    && row.longitude == Api.FieldNumber(form.longitude)
    && row.accuracy == Api.FieldNumber(form.accuracy)
  }

  /** Coordinates survive the round trip through the upload form and the
      database row. A submission without a position is stored at (0, 0) with
      accuracy 0, so it never appears on the map and its history card shows
      a stray "0" instead of an accuracy badge. */
  lemma SubmittedCoordinatesReadBack(data: Api.ObservationData, response: Result<Api.UploadResponse>, row: Api.Row)
    requires Api.SubmitObservation(data, true, response).sent.Some?
    requires StoredFromFields(Api.SubmitObservation(data, true, response).sent.value, row)
    ensures data.geolocation.Some? ==>
              Api.MapRow(row).geolocation
              == Geolocation(Some(data.geolocation.value.latitude), Some(data.geolocation.value.longitude),
                             data.geolocation.value.accuracy)
    ensures data.geolocation.Some? && data.geolocation.value.accuracy != 0.0 ==>
              History.AccuracyBadge(Api.MapRow(row).geolocation.accuracy)
              == History.Badge(History.GetLocationAccuracy(data.geolocation.value.accuracy))
    ensures data.geolocation.None? ==>
              Api.MapRow(row).geolocation == Geolocation(Some(0.0), Some(0.0), 0.0)
              && !ObservationMap.HasMapCoordinates(Api.MapRow(row))
              && History.AccuracyBadge(Api.MapRow(row).geolocation.accuracy) == History.StrayZero
  {
    Api.CoordinateFieldReadsBack(data.geolocation, (c: Coords) => c.latitude);
    Api.CoordinateFieldReadsBack(data.geolocation, (c: Coords) => c.longitude);
    Api.CoordinateFieldReadsBack(data.geolocation, (c: Coords) => c.accuracy);
  }
}
