/** Input validation and sanitisation (lib/validation.ts). */
module Validation {
  import opened Wrappers
  import Seqs

  /** `{ isValid, errors }` as returned by the validators. */
  datatype ValidationResult = ValidationResult(isValid: bool, errors: seq<string>)

  const LatitudeError: string := "Invalid latitude. Must be between -90 and 90"
  const LongitudeError: string := "Invalid longitude. Must be between -180 and 180"
  const CommentError: string := "Comment must be less than 1000 characters"

  /** The longest comment accepted; the message above says "less than", the test is `> 1000`. */
  const MaxCommentLength: nat := 1000

  /** The three messages in the order the checks run. */
  const ObservationErrorOrder: seq<string> := [LatitudeError, LongitudeError, CommentError]

  /** A character's width in UTF-16 code units: characters outside the Basic
      Multilingual Plane are stored as a surrogate pair. */
  function Utf16Units(c: char): nat {
    if c >= '\U{10000}' then 2 else 1
  }

  /** JavaScript's `s.length`, which counts UTF-16 code units, not characters. */
  function Utf16Length(s: string): (n: nat)
    ensures |s| <= n <= 2 * |s|
    decreases |s|
  {
    if |s| == 0 then 0 else Utf16Units(s[0]) + Utf16Length(s[1..])
  }

  lemma {:induction false} Utf16LengthConcat(a: string, b: string)
    ensures Utf16Length(a + b) == Utf16Length(a) + Utf16Length(b)
    decreases |a|
  {
    if |a| == 0 {
      assert a + b == b;
    } else {
      assert (a + b)[1..] == a[1..] + b;
      Utf16LengthConcat(a[1..], b);
    }
  }

  /** Text made only of characters outside the Basic Multilingual Plane (emoji,
      for instance) has twice as many code units as characters. */
  lemma {:induction false} Utf16LengthAstral(s: string)
    requires forall i :: 0 <= i < |s| ==> s[i] >= '\U{10000}'
    ensures Utf16Length(s) == 2 * |s|
    decreases |s|
  {
    if |s| > 0 {
      Utf16LengthAstral(s[1..]);
    }
  }

  predicate LatitudeOutOfRange(x: real) { x < -90.0 || x > 90.0 }
  predicate LongitudeOutOfRange(x: real) { x < -180.0 || x > 180.0 }

  /** The messages of the checks that failed, in the order the checks run. */
  function FailedChecks(latitudeBad: bool, longitudeBad: bool, commentBad: bool): (errors: seq<string>)
    ensures LatitudeError in errors <==> latitudeBad
    ensures LongitudeError in errors <==> longitudeBad
    ensures CommentError in errors <==> commentBad
    ensures |errors| <= 3
    ensures Seqs.IsSubsequence(errors, ObservationErrorOrder)
  {
    var latErrors := if latitudeBad then [LatitudeError] else [];
    var lonErrors := if longitudeBad then [LongitudeError] else [];
    var commentErrors := if commentBad then [CommentError] else [];
    var errors := latErrors + lonErrors + commentErrors;
    assert Seqs.IsSubsequence(commentErrors, [CommentError]);
    assert Seqs.IsSubsequence(lonErrors + commentErrors, [LongitudeError, CommentError]) by {
      if lonErrors == [] {
        Seqs.SubsequenceOfTail(commentErrors, [LongitudeError, CommentError]);
      }
    }
    assert Seqs.IsSubsequence(errors, ObservationErrorOrder) by {
      assert ObservationErrorOrder[1..] == [LongitudeError, CommentError];
      if latErrors == [] {
        Seqs.SubsequenceOfTail(lonErrors + commentErrors, ObservationErrorOrder);
      } else {
        assert errors[1..] == lonErrors + commentErrors;
      }
    }
    errors
  }

  /** `validateObservationData`: a field that is `undefined` (`None`) is never
      checked; an empty comment is falsy and is not checked either. */
  function ValidateObservationData(comment: Option<string>, latitude: Option<real>, longitude: Option<real>)
    : (r: ValidationResult)
    ensures r.isValid <==> |r.errors| == 0
    ensures LatitudeError in r.errors <==> latitude.Some? && LatitudeOutOfRange(latitude.value)
    ensures LongitudeError in r.errors <==> longitude.Some? && LongitudeOutOfRange(longitude.value)
    ensures CommentError in r.errors <==> comment.Some? && Utf16Length(comment.value) > MaxCommentLength
    ensures |r.errors| <= 3
    ensures Seqs.IsSubsequence(r.errors, ObservationErrorOrder)
  {
    var errors := FailedChecks(
      latitude.Some? && LatitudeOutOfRange(latitude.value),
      longitude.Some? && LongitudeOutOfRange(longitude.value),
      comment.Some? && |comment.value| > 0 && Utf16Length(comment.value) > MaxCommentLength);
    ValidationResult(|errors| == 0, errors)
  }

  /** The range bounds are inclusive and a comment of exactly 1000 code units
      passes, while one more character is rejected. */
  lemma BoundaryValuesAccepted(c: string)
    requires Utf16Length(c) == MaxCommentLength
    ensures ValidateObservationData(Some(c), Some(-90.0), Some(180.0)).isValid
    ensures ValidateObservationData(Some(c), Some(90.0), Some(-180.0)).isValid
    ensures ValidateObservationData(Some(c + "x"), Some(90.0), Some(-180.0)).errors == [CommentError]
  {
    Utf16LengthConcat(c, "x");
  }

  /** 501 emoji are only 501 characters but 1002 code units, so the comment is
      rejected. */
  lemma AstralCommentRejected(c: string)
    requires |c| == 501 && forall i :: 0 <= i < |c| ==> c[i] >= '\U{10000}'
    ensures ValidateObservationData(Some(c), None, None).errors == [CommentError]
  {
    Utf16LengthAstral(c);
  }

  // ---------------------------------------------------------------------------
  // sanitizeInput

  /** The code points `String.prototype.trim` removes: ECMAScript WhiteSpace
      and LineTerminator. */
  predicate IsTrimmable(c: char) {
    c == '\t' || c == '\n' || c == '\U{000B}' || c == '\U{000C}' || c == '\r' || c == ' '
    || c == '\U{00A0}' || c == '\U{1680}' || ('\U{2000}' <= c <= '\U{200A}')
    || c == '\U{2028}' || c == '\U{2029}' || c == '\U{202F}' || c == '\U{205F}'
    || c == '\U{3000}' || c == '\U{FEFF}'
  }

  /** Drops leading trimmable characters. */
  function TrimStart(s: string): (r: string)
    ensures |r| <= |s| && r == s[|s| - |r|..]
    ensures forall i :: 0 <= i < |s| - |r| ==> IsTrimmable(s[i])
    ensures |r| > 0 ==> !IsTrimmable(r[0])
  {
    if |s| > 0 && IsTrimmable(s[0]) then TrimStart(s[1..]) else s
  }

  /** Drops trailing trimmable characters. */
  function TrimEnd(s: string): (r: string)
    ensures |r| <= |s| && r == s[..|r|]
    ensures forall i :: |r| <= i < |s| ==> IsTrimmable(s[i])
    ensures |r| > 0 ==> !IsTrimmable(r[|r| - 1])
  {
    if |s| > 0 && IsTrimmable(s[|s| - 1]) then TrimEnd(s[..|s| - 1]) else s
  }

  /** `input.trim()`: the slice of `s` left after removing trimmable characters
      from both ends; it neither starts nor ends with one. */
  function Trim(s: string): (r: string)
    ensures exists i, j :: 0 <= i <= j <= |s| && r == s[i..j]
                           && (forall k :: 0 <= k < i ==> IsTrimmable(s[k]))
                           && (forall k :: j <= k < |s| ==> IsTrimmable(s[k]))
    ensures |r| > 0 ==> !IsTrimmable(r[0]) && !IsTrimmable(r[|r| - 1])
  {
    var t := TrimStart(s);
    var r := TrimEnd(t);
    var i := |s| - |t|;
    assert r == s[i..i + |r|];
    r
  }

  predicate NotAngleBracket(c: char) { c != '<' && c != '>' }

  /** `.replace(/[<>]/g, "")`. */
  function StripAngleBrackets(s: string): string {
    Seqs.Filter(s, NotAngleBracket)
  }

  /** `sanitizeInput`: trim first, then delete every `<` and `>`. */
  function SanitizeInput(input: string): (r: string)
    ensures '<' !in r && '>' !in r
    ensures |r| <= |input|
    ensures forall c :: c in r <==> c in Trim(input) && NotAngleBracket(c)
    ensures forall c :: multiset(r)[c] == if NotAngleBracket(c) then multiset(Trim(input))[c] else 0
    ensures Seqs.IsSubsequence(r, Trim(input))
  {
    Seqs.FilterCharacterization(Trim(input), NotAngleBracket);
    StripAngleBrackets(Trim(input))
  }

  /** A second sanitisation deletes nothing more; it can only trim whitespace
      that the first deletion exposed. */
  lemma SanitizeTwiceOnlyTrims(input: string)
    ensures SanitizeInput(SanitizeInput(input)) == Trim(SanitizeInput(input))
  {
    var once := SanitizeInput(input);
    var t := Trim(once);
    assert forall c :: c in t ==> c in once;
    Seqs.FilterAll(t, NotAngleBracket);
  }

  /** Text that neither starts nor ends with a trimmable character is its own trim. */
  lemma TrimFixesTrimmed(s: string)
    requires |s| > 0 ==> !IsTrimmable(s[0]) && !IsTrimmable(s[|s| - 1])
    ensures Trim(s) == s
  {
    assert TrimStart(s) == s;
    assert TrimEnd(s) == s;
  }

  /** Text that is already trimmed and free of angle brackets is unchanged. */
  lemma SanitizeFixesCleanText(s: string)
    requires forall i :: 0 <= i < |s| ==> NotAngleBracket(s[i])
    requires |s| > 0 ==> !IsTrimmable(s[0]) && !IsTrimmable(s[|s| - 1])
    ensures SanitizeInput(s) == s
  {
    TrimFixesTrimmed(s);
    Seqs.FilterAll(s, NotAngleBracket);
  }

  /** `sanitizeInput` is not idempotent: deleting `<` can expose a space that
      the earlier trim did not see. */
  lemma SanitizeNotIdempotent()
    ensures SanitizeInput("< a") == " a"
    ensures SanitizeInput(SanitizeInput("< a")) == "a"
  {
    SanitizeLeadingBracket();
    SanitizeLeadingSpace();
  }

  lemma SanitizeLeadingBracket()
    ensures SanitizeInput("< a") == " a"
  {
    TrimFixesTrimmed("< a");
    assert "< a"[1..] == " a";
    assert " a"[1..] == "a";
    assert "a"[1..] == [];
    assert Seqs.Filter("a", NotAngleBracket) == "a";
    assert Seqs.Filter(" a", NotAngleBracket) == " a";
  }

  lemma SanitizeLeadingSpace()
    ensures SanitizeInput(" a") == "a"
  {
    assert " a"[1..] == "a";
    assert TrimStart(" a") == "a";
    assert TrimEnd("a") == "a";
    assert Trim(" a") == "a";
    assert StripAngleBrackets("a") == "a" by {
      assert "a"[1..] == [];
    }
  }

  // ---------------------------------------------------------------------------
  // validateImageFile

  /** The `File` properties the validator reads. */
  datatype FileInfo = FileInfo(size: int, mimeType: string)

  /** `FileValidationOptions`; a `None` field is `undefined` and takes its default. */
  datatype FileValidationOptions = FileValidationOptions(
    maxSizeBytes: Option<int>,
    allowedTypes: Option<seq<string>>,
    minWidth: Option<int>,
    minHeight: Option<int>)

  datatype Dimensions = Dimensions(width: int, height: int)

  /** One reported problem; the source renders each as an English sentence. */
  datatype FileError =
    | TooLarge(maxSizeMB: int, sizeMB: int)
    | UnsupportedType(allowed: seq<string>)
    | TooSmall(minWidth: int, minHeight: int, width: int, height: int)
    | UnreadableDimensions

  datatype FileValidation = FileValidation(isValid: bool, errors: seq<FileError>)

  const MiB: int := 1024 * 1024
  const DefaultMaxSizeBytes: int := 10 * MiB
  const DefaultAllowedTypes: seq<string> := ["image/jpeg", "image/jpg", "image/png", "image/webp"]
  const DefaultMinSide: int := 100

  const NoOptions: FileValidationOptions := FileValidationOptions(None, None, None, None)

  /** `Math.round(bytes / (1024 * 1024))`: halves round towards +infinity. */
  function RoundToMiB(bytes: int): (r: int)
    ensures r * MiB - MiB / 2 <= bytes < r * MiB + MiB / 2
  {
    (bytes + MiB / 2) / MiB
  }

  /** The size check: an error reporting both sizes in whole MiB. */
  function SizeCheck(size: int, maxSize: int): (e: Option<FileError>)
    ensures e.Some? <==> size > maxSize
    ensures e.Some? ==> e.value == TooLarge(RoundToMiB(maxSize), RoundToMiB(size))
  {
    if size > maxSize then Some(TooLarge(RoundToMiB(maxSize), RoundToMiB(size))) else None
  }

  /** The type check: an error listing the allowed types. */
  function TypeCheck(mimeType: string, allowed: seq<string>): (e: Option<FileError>)
    ensures e.Some? <==> mimeType !in allowed
    ensures e.Some? ==> e.value == UnsupportedType(allowed)
  {
    if mimeType !in allowed then Some(UnsupportedType(allowed)) else None
  }

  /** The dimension check, or the error of an image that could not be loaded. */
  function DimensionCheck(dims: Result<Dimensions>, minWidth: int, minHeight: int): (e: Option<FileError>)
    ensures dims.Failure? ==> e == Some(UnreadableDimensions)
    ensures dims.Success? ==>
              (e.Some? <==> dims.value.width < minWidth || dims.value.height < minHeight)
              && (e.Some? ==> e.value == TooSmall(minWidth, minHeight, dims.value.width, dims.value.height))
  {
    match dims
    case Failure(_) => Some(UnreadableDimensions)
    case Success(d) =>
      if d.width < minWidth || d.height < minHeight then Some(TooSmall(minWidth, minHeight, d.width, d.height))
      else None
  }

  function Count(e: Option<FileError>): nat {
    if e.Some? then 1 else 0
  }

  /** The errors pushed by the three checks, in the order they run. */
  function CollectErrors(size: Option<FileError>, fileType: Option<FileError>, dimensions: Option<FileError>)
    : (errors: seq<FileError>)
    ensures |errors| == Count(size) + Count(fileType) + Count(dimensions)
    ensures forall e :: e in errors <==>
              (size.Some? && e == size.value) || (fileType.Some? && e == fileType.value)
              || (dimensions.Some? && e == dimensions.value)
    ensures size.Some? ==> errors[0] == size.value
    ensures fileType.Some? ==> errors[Count(size)] == fileType.value
    ensures dimensions.Some? ==> errors[|errors| - 1] == dimensions.value
  {
    var a := if size.Some? then [size.value] else [];
    var b := if fileType.Some? then [fileType.value] else [];
    var c := if dimensions.Some? then [dimensions.value] else [];
    assert (a + b + c)[|a|..] == b + c;
    a + b + c
  }

  /** `validateImageFile`. Reading the pixel dimensions loads the image in the
      browser, so the outcome of that load is the parameter `dims`. */
  function ValidateImageFile(file: FileInfo, options: FileValidationOptions, dims: Result<Dimensions>)
    : (r: FileValidation)
    ensures r.isValid <==> |r.errors| == 0
    ensures |r.errors| <= 3
    ensures |r.errors| == (if file.size > options.maxSizeBytes.GetOr(DefaultMaxSizeBytes) then 1 else 0)
                          + (if file.mimeType !in options.allowedTypes.GetOr(DefaultAllowedTypes) then 1 else 0)
                          + (if dims.Failure? || dims.value.width < options.minWidth.GetOr(DefaultMinSide)
                                || dims.value.height < options.minHeight.GetOr(DefaultMinSide) then 1 else 0)
    ensures (exists e :: e in r.errors && e.TooLarge?)
            <==> file.size > options.maxSizeBytes.GetOr(DefaultMaxSizeBytes)
    ensures (exists e :: e in r.errors && e.UnsupportedType?)
            <==> file.mimeType !in options.allowedTypes.GetOr(DefaultAllowedTypes)
    ensures (exists e :: e in r.errors && e.UnreadableDimensions?) <==> dims.Failure?
    ensures (exists e :: e in r.errors && e.TooSmall?)
            <==> dims.Success? && (dims.value.width < options.minWidth.GetOr(DefaultMinSide)
                                   || dims.value.height < options.minHeight.GetOr(DefaultMinSide))
    ensures var maxSize := options.maxSizeBytes.GetOr(DefaultMaxSizeBytes);
            file.size > maxSize ==> r.errors[0] == TooLarge(RoundToMiB(maxSize), RoundToMiB(file.size))
    ensures var allowed := options.allowedTypes.GetOr(DefaultAllowedTypes);
            var before := if file.size > options.maxSizeBytes.GetOr(DefaultMaxSizeBytes) then 1 else 0;
            file.mimeType !in allowed ==> r.errors[before] == UnsupportedType(allowed)
    ensures dims.Failure? ==> r.errors[|r.errors| - 1] == UnreadableDimensions
    ensures var minWidth, minHeight := options.minWidth.GetOr(DefaultMinSide), options.minHeight.GetOr(DefaultMinSide);
            dims.Success? && (dims.value.width < minWidth || dims.value.height < minHeight) ==>
              r.errors[|r.errors| - 1] == TooSmall(minWidth, minHeight, dims.value.width, dims.value.height)
  {
    var size := SizeCheck(file.size, options.maxSizeBytes.GetOr(DefaultMaxSizeBytes));
    var fileType := TypeCheck(file.mimeType, options.allowedTypes.GetOr(DefaultAllowedTypes));
    var dimensions := DimensionCheck(dims, options.minWidth.GetOr(DefaultMinSide), options.minHeight.GetOr(DefaultMinSide));
    var errors := CollectErrors(size, fileType, dimensions);
    assert size.Some? ==> size.value in errors;
    assert fileType.Some? ==> fileType.value in errors;
    assert dimensions.Some? ==> dimensions.value in errors;
    FileValidation(|errors| == 0, errors)
  }

  /** With the default options a file of exactly 10 MiB passes the size check
      and one byte more fails it; a type outside the list adds exactly one error. */
  lemma DefaultSizeLimitInclusive(mimeType: string, dims: Result<Dimensions>)
    ensures !exists e :: e in ValidateImageFile(FileInfo(DefaultMaxSizeBytes, mimeType), NoOptions, dims).errors && e.TooLarge?
    ensures exists e :: e in ValidateImageFile(FileInfo(DefaultMaxSizeBytes + 1, mimeType), NoOptions, dims).errors && e.TooLarge?
    ensures ValidateImageFile(FileInfo(0, "image/gif"), NoOptions, Success(Dimensions(100, 100))).errors
            == [UnsupportedType(DefaultAllowedTypes)]
  {
    var r := ValidateImageFile(FileInfo(DefaultMaxSizeBytes + 1, mimeType), NoOptions, dims);
    assert r.errors[0].TooLarge? && r.errors[0] in r.errors;
    GifRejectedOnce();
  }

  lemma GifRejectedOnce()
    ensures ValidateImageFile(FileInfo(0, "image/gif"), NoOptions, Success(Dimensions(100, 100))).errors
            == [UnsupportedType(DefaultAllowedTypes)]
  {
    var gif := ValidateImageFile(FileInfo(0, "image/gif"), NoOptions, Success(Dimensions(100, 100)));
    assert "image/gif" !in DefaultAllowedTypes;
    assert |gif.errors| == 1;
    assert gif.errors[0] == UnsupportedType(DefaultAllowedTypes);
  }

  /** A 15.4 MiB file under the defaults is reported first, as 15 MiB against
      the 10 MiB limit. */
  lemma OversizeReportedInMiB(mimeType: string, dims: Result<Dimensions>)
    ensures ValidateImageFile(FileInfo(15 * MiB + 400 * 1024, mimeType), NoOptions, dims).errors[0] == TooLarge(10, 15)
  {
    assert RoundToMiB(DefaultMaxSizeBytes) == 10;
    assert RoundToMiB(15 * MiB + 400 * 1024) == 15;
  }
}
