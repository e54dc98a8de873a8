/** The client API (lib/api.ts): the checks `submitObservation` makes before
    uploading, the form it sends, and the row mapping of `fetchObservations`. */
module Api {
  import opened Wrappers
  import Seqs
  import opened Model

  // ---------------------------------------------------------------------------
  // String.prototype.split on one character, and its inverse.

  /** `s.split(sep)`: the pieces between separators; never empty. */
  function Split(s: string, sep: char): (parts: seq<string>)
    ensures |parts| >= 1
    ensures forall i :: 0 <= i < |parts| ==> sep !in parts[i]
  {
    if |s| == 0 then [""]
    else if s[0] == sep then [""] + Split(s[1..], sep)
    else
      var rest := Split(s[1..], sep);
      [[s[0]] + rest[0]] + rest[1..]
  }

  /** `parts.join(sep)`. */
  function Join(parts: seq<string>, sep: char): string
    requires |parts| >= 1
  {
    if |parts| == 1 then parts[0] else parts[0] + [sep] + Join(parts[1..], sep)
  }

  /** Joining the pieces gives back the string. */
  lemma {:induction false} JoinSplit(s: string, sep: char)
    ensures Join(Split(s, sep), sep) == s
  {
    if |s| > 0 {
      JoinSplit(s[1..], sep);
      var rest := Split(s[1..], sep);
      if s[0] == sep {
        assert ([""] + rest)[1..] == rest;
      } else {
        var parts := [[s[0]] + rest[0]] + rest[1..];
        assert parts[1..] == rest[1..];
        if |rest| == 1 {
          assert Join(rest, sep) == rest[0];
        } else {
          assert Join(rest, sep) == rest[0] + [sep] + Join(rest[1..], sep);
        }
        assert s == [s[0]] + s[1..];
      }
    }
  }

  /** A separator-free word glues onto the first piece of what follows it. */
  lemma {:induction false} SplitAfterWord(word: string, rest: string, sep: char)
    requires sep !in word
    ensures Split(word + rest, sep) == [word + Split(rest, sep)[0]] + Split(rest, sep)[1..]
    decreases |word|
  {
    if |word| == 0 {
      assert word + rest == rest;
      assert word + Split(rest, sep)[0] == Split(rest, sep)[0];
      assert Split(rest, sep) == [Split(rest, sep)[0]] + Split(rest, sep)[1..];
    } else {
      SplitAfterWord(word[1..], rest, sep);
      assert (word + rest)[1..] == word[1..] + rest;
      assert [word[0]] + (word[1..] + Split(rest, sep)[0]) == word + Split(rest, sep)[0];
    }
  }

  /** Splitting text made of separator-free pieces gives the pieces back. */
  lemma {:induction false} SplitJoin(parts: seq<string>, sep: char)
    requires |parts| >= 1
    requires forall i :: 0 <= i < |parts| ==> sep !in parts[i]
    ensures Split(Join(parts, sep), sep) == parts
    decreases |parts|
  {
    if |parts| == 1 {
      SplitAfterWord(parts[0], "", sep);
      assert parts[0] + "" == parts[0];
    } else {
      var rest := [sep] + Join(parts[1..], sep);
      SplitJoin(parts[1..], sep);
      assert rest[1..] == Join(parts[1..], sep);
      assert Split(rest, sep) == [""] + parts[1..];
      SplitAfterWord(parts[0], rest, sep);
      assert Join(parts, sep) == parts[0] + rest;
      assert parts[0] + "" == parts[0];
      assert parts == [parts[0]] + parts[1..];
    }
  }

  // ---------------------------------------------------------------------------
  // submitObservation

  const DataUrlPrefix: string := "data:image/"
  const InvalidImageFormat: string := "Invalid image format. Expected a data URL."
  const NoBase64Data: string := "Could not extract base64 data from image"
  const DecodeFailed: string := "Failed to decode image data"
  const UploadFailed: string := "Upload failed"

  /** The base64 payload of an image data URL: `image.split(",")[1]`, rejected
      when missing or empty. */
  function ExtractBase64(image: string): (r: Result<string>)
    ensures !Seqs.StartsWith(image, DataUrlPrefix) ==> r == Failure(InvalidImageFormat)
    ensures r.Success? ==> Seqs.StartsWith(image, DataUrlPrefix) && |r.value| > 0 && ',' !in r.value
    ensures r.Success? ==>
              exists header, tail :: ',' !in header && image == header + [','] + r.value + tail
                                     && (|tail| == 0 || tail[0] == ',')
    ensures Seqs.StartsWith(image, DataUrlPrefix) ==>
              (r.Success? <==> |Split(image, ',')| >= 2 && Split(image, ',')[1] != "")
    ensures r.Failure? && Seqs.StartsWith(image, DataUrlPrefix) ==> r.error == NoBase64Data
  {
    if !Seqs.StartsWith(image, DataUrlPrefix) then Failure(InvalidImageFormat)
    else
      var parts := Split(image, ',');
      if |parts| < 2 || parts[1] == "" then Failure(NoBase64Data)
      else
        JoinSplit(image, ',');
        var tail := if |parts| == 2 then "" else [','] + Join(parts[2..], ',');
        assert parts[1..][1..] == parts[2..];
        assert image == parts[0] + [','] + parts[1] + tail;
        Success(parts[1])
  }

  /** The first piece of a split is empty exactly when the text is empty or
      starts with the separator. */
  lemma SplitHeadEmpty(tail: string, sep: char)
    requires |tail| == 0 || tail[0] == sep
    ensures Split(tail, sep)[0] == ""
  {
  }

  /** A data URL built from a header, a non-empty payload and anything that is
      empty or starts with a further comma yields that payload: everything
      after the second comma is ignored. */
  lemma DataUrlRoundTrip(header: string, payload: string, tail: string)
    requires Seqs.StartsWith(header, DataUrlPrefix) && ',' !in header
    requires |payload| > 0 && ',' !in payload
    requires |tail| == 0 || tail[0] == ','
    ensures ExtractBase64(header + [','] + payload + tail) == Success(payload)
  {
    var image := header + [','] + payload + tail;
    var afterHeader := [','] + payload + tail;
    assert image == header + afterHeader;
    SplitAfterWord(header, afterHeader, ',');
    assert afterHeader[1..] == payload + tail;
    SplitAfterWord(payload, tail, ',');
    SplitHeadEmpty(tail, ',');
    assert payload + "" == payload;
    assert Split(image, ',')[1] == payload;
    assert image[..|DataUrlPrefix|] == header[..|DataUrlPrefix|];
  }

  /** Only the piece between the first and second comma is uploaded, and an
      image with nothing after its first comma is refused. */
  lemma DataUrlExamples()
    ensures ExtractBase64("data:image/x,AB,C") == Success("AB")
    ensures ExtractBase64("data:image/x,") == Failure(NoBase64Data)
  {
    assert "data:image/x"[..|DataUrlPrefix|] == DataUrlPrefix;
    DataUrlRoundTrip("data:image/x", "AB", ",C");
    assert "data:image/x" + [','] + "AB" + ",C" == "data:image/x,AB,C";
    assert "data:image/x,"[..|DataUrlPrefix|] == DataUrlPrefix;
    SplitAfterWord("data:image/x", ",", ',');
    assert "data:image/x" + "," == "data:image/x,";
    assert Split(",", ',') == ["", ""];
  }

  /** A numeric form field: `NumberText(x)` is `x.toString()`. */
  datatype FieldText = Literal(text: string) | NumberText(x: real)

  /** The text fields of the upload form (the image file and `deviceInfo` aside). */
  datatype UploadForm = UploadForm(
    comment: string,
    timestamp: string,
    latitude: FieldText,
    longitude: FieldText,
    accuracy: FieldText)

  /** `ObservationData` without the device information. */
  datatype ObservationData = ObservationData(
    image: string,
    comment: string,
    timestamp: string,
    geolocation: Option<Coords>)

  /** The JSON body `/api/upload` answered with; an absent `error` is the empty string. */
  datatype UploadResponse = UploadResponse(ok: bool, error: string, id: string, imageUrl: string)

  datatype Created = Created(id: string, imageUrl: string)

  /** The form actually sent (if any) and what the call returned or threw. */
  datatype SubmitOutcome = SubmitOutcome(sent: Option<UploadForm>, result: Result<Created>)

  /** `geolocation?.x?.toString() || "0"`. */
  function CoordinateField(geolocation: Option<Coords>, pick: Coords -> real): (f: FieldText)
    ensures geolocation.None? ==> f == Literal("0")
    ensures geolocation.Some? ==> f == NumberText(pick(geolocation.value))
  {
    match geolocation
    case None => Literal("0")
    case Some(g) => NumberText(pick(g))
  }

  /** The number the upload route reads back from a field with `parseFloat`:
      a number's text gives the number and "0" gives 0. No other literal is
      ever sent in a coordinate field, so no other text is parsed here. */
  function FieldNumber(f: FieldText): (x: Option<real>)
    ensures f.NumberText? ==> x == Some(f.x)
    ensures f == Literal("0") ==> x == Some(0.0)
  {
    match f
    case NumberText(x) => Some(x)
    case Literal(text) => if text == "0" then Some(0.0) else None
  }

  /** Every coordinate field of a submission reads back as a number: the
      device's when a position was given, and 0 otherwise. */
  lemma CoordinateFieldReadsBack(geolocation: Option<Coords>, pick: Coords -> real)
    ensures FieldNumber(CoordinateField(geolocation, pick))
            == Some(if geolocation.Some? then pick(geolocation.value) else 0.0)
  {
  }

  /** `submitObservation`. Whether `atob` accepts the payload is a parameter,
      and so is the server's answer: `Failure` when `fetch` rejects or the body
      is not JSON, with the message thrown. */
  function SubmitObservation(data: ObservationData, payloadDecodes: bool, response: Result<UploadResponse>)
    : (r: SubmitOutcome)
    ensures !Seqs.StartsWith(data.image, DataUrlPrefix) ==> r == SubmitOutcome(None, Failure(InvalidImageFormat))
    ensures ExtractBase64(data.image).Failure? ==> r == SubmitOutcome(None, Failure(ExtractBase64(data.image).error))
    ensures ExtractBase64(data.image).Success? && !payloadDecodes ==> r == SubmitOutcome(None, Failure(DecodeFailed))
    ensures r.sent.Some? <==> ExtractBase64(data.image).Success? && payloadDecodes
    ensures r.sent.Some? ==> r.sent.value.comment == data.comment && r.sent.value.timestamp == data.timestamp
    ensures r.sent.Some? && data.geolocation.None? ==>
              r.sent.value.latitude == Literal("0") && r.sent.value.longitude == Literal("0")
              && r.sent.value.accuracy == Literal("0")
    ensures r.sent.Some? && data.geolocation.Some? ==>
              r.sent.value.latitude == NumberText(data.geolocation.value.latitude)
              && r.sent.value.longitude == NumberText(data.geolocation.value.longitude)
              && r.sent.value.accuracy == NumberText(data.geolocation.value.accuracy)
    ensures r.sent.Some? && response.Failure? ==> r.result == Failure(response.error)
    ensures r.sent.Some? && response.Success? && !response.value.ok ==>
              r.result == Failure(if response.value.error != "" then response.value.error else UploadFailed)
    ensures r.result.Success? <==> r.sent.Some? && response.Success? && response.value.ok
    ensures r.result.Success? ==> r.result.value == Created(response.value.id, response.value.imageUrl)
  {
    match ExtractBase64(data.image)
    case Failure(e) => SubmitOutcome(None, Failure(e))
    case Success(_) =>
      if !payloadDecodes then SubmitOutcome(None, Failure(DecodeFailed))
      else
        var form := UploadForm(
          data.comment, data.timestamp,
          CoordinateField(data.geolocation, (c: Coords) => c.latitude),
          CoordinateField(data.geolocation, (c: Coords) => c.longitude),
          CoordinateField(data.geolocation, (c: Coords) => c.accuracy));
        match response
        case Failure(e) => SubmitOutcome(Some(form), Failure(e))
        case Success(answer) =>
          if !answer.ok then
            SubmitOutcome(Some(form), Failure(if answer.error != "" then answer.error else UploadFailed))
          else SubmitOutcome(Some(form), Success(Created(answer.id, answer.imageUrl)))
  }

  /** A well-formed data URL whose payload decodes is uploaded, and an OK
      answer is returned to the caller. */
  lemma ValidDataUrlIsUploaded(header: string, payload: string, data: ObservationData, answer: UploadResponse)
    requires Seqs.StartsWith(header, DataUrlPrefix) && ',' !in header
    requires |payload| > 0 && ',' !in payload
    requires data.image == header + [','] + payload
    requires answer.ok
    ensures SubmitObservation(data, true, Success(answer)).sent.Some?
    ensures SubmitObservation(data, true, Success(answer)).result == Success(Created(answer.id, answer.imageUrl))
  {
    DataUrlRoundTrip(header, payload, "");
    assert header + [','] + payload + "" == data.image;
  }

  // ---------------------------------------------------------------------------
  // fetchObservations

  /** A row of the `observations` table; `createdAt` abstracts `created_at`.
      The coordinates may be `null` at run time. */
  datatype Row = Row(
    id: string,
    createdAt: int,
    imageUrl: string,
    comment: string,
    latitude: Option<real>,
    longitude: Option<real>,
    accuracy: Option<real>,
    status: Status)

  /** The `data.map((item) => ({ … }))` callback. */
  function MapRow(row: Row): (o: Observation)
    ensures o.id == row.id && o.comment == row.comment && o.status == row.status
    ensures o.timestamp == row.createdAt && o.imageUrl == row.imageUrl
    ensures o.geolocation.latitude == row.latitude && o.geolocation.longitude == row.longitude
    ensures o.geolocation.accuracy == 0.0 <==> row.accuracy.None? || row.accuracy.value == 0.0
    ensures row.accuracy.Some? ==> o.geolocation.accuracy == row.accuracy.value
  {
    Observation(
      row.id, row.imageUrl, row.comment, row.createdAt,
      Geolocation(row.latitude, row.longitude, row.accuracy.GetOr(0.0)),
      row.status)
  }

  /** The row an observation would be read from. */
  function ToRow(o: Observation): Row {
    Row(o.id, o.timestamp, o.imageUrl, o.comment, o.geolocation.latitude, o.geolocation.longitude,
        Some(o.geolocation.accuracy), o.status)
  }

  /** Mapping loses nothing except the distinction between a `null` and a 0 accuracy. */
  lemma MapRowRoundTrip(o: Observation, row: Row)
    ensures MapRow(ToRow(o)) == o
    ensures ToRow(MapRow(row)) == row.(accuracy := Some(row.accuracy.GetOr(0.0)))
  {
  }

  /** `fetchObservations`: the query result is a parameter; an error is rethrown. */
  function FetchObservations(query: Result<seq<Row>>): (r: Result<seq<Observation>>)
    ensures r.Failure? <==> query.Failure?
    ensures r.Success? ==> |r.value| == |query.value|
    ensures r.Success? ==> forall i :: 0 <= i < |r.value| ==> r.value[i] == MapRow(query.value[i])
  {
    match query
    case Failure(e) => Failure(e)
    case Success(rows) => Success(seq(|rows|, i requires 0 <= i < |rows| => MapRow(rows[i])))
  }
}
