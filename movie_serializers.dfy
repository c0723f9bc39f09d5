/**
 * The field validators of MovieModelSerializer and the rate field of
 * MovieListDetailSerializer. DRF calls validate_<field>(value) on a field
 * that passed its own checks and keeps what the method returns as the
 * validated value; raising ValidationError refuses the field with its message.
 */
module MovieSerializers {
  import opened Wrappers
  import opened Text
  import opened Dates
  import opened MovieStats

  const LimitResumeCharacters: nat := 500
  const LimitYearOfBirth: nat := 1900

  /**
   * How DRF ends a field's validation when the method does not return: a
   * ValidationError refuses the field with its message (a 400 answer); any
   * other exception escapes the serializer (a 500 answer).
   */
  datatype FieldError = ValidationError(message: string) | ServerError(exception: string)

  // The validators as written: the checks pass without a return statement,
  // and an explicit null (both fields are nullable) reaches the check.

  /** The text the release-date validator raises. */
  const ReleaseDateMessageAsWritten := "The release date can not be less than 1990"

  /** The text the resume validator raises. */
  const ResumeMessageAsWritten := "The resume can not have lenght more than 200 characters"

  /**
   * validate_release_date as written: `None.year` raises AttributeError; a
   * year before LIMIT_YEAR_OF_BIRTH is refused; any other date falls off the
   * end of the method, so the validated value is None.
   */
  function ValidateReleaseDateAsWritten(value: Option<Date>): (r: Result<Option<Date>, FieldError>)
    ensures r.Success? ==> r.value == None
    ensures r.Success? <==> value.Some? && value.value.year >= LimitYearOfBirth
    ensures value.None? ==> r == Failure(ServerError("AttributeError"))
  {
    match value
    case None => Failure(ServerError("AttributeError"))
    case Some(d) =>
      if d.year < LimitYearOfBirth then Failure(ValidationError(ReleaseDateMessageAsWritten)) else Success(None)
  }

  /**
   * validate_resume as written: `len(None)` raises TypeError; longer than
   * LIMIT_RESUME_CHARACTERS is refused; anything else validates to None.
   */
  function ValidateResumeAsWritten(value: Option<string>): (r: Result<Option<string>, FieldError>)
    ensures r.Success? ==> r.value == None
    ensures r.Success? <==> value.Some? && |value.value| <= LimitResumeCharacters
    ensures value.None? ==> r == Failure(ServerError("TypeError"))
  {
    match value
    case None => Failure(ServerError("TypeError"))
    case Some(text) =>
      if |text| > LimitResumeCharacters then Failure(ValidationError(ResumeMessageAsWritten)) else Success(None)
  }

  // The validators as intended: null is let through, a value that passes is
  // returned, and the messages name the limits.

  /** "The release date can not be less than 1900." */
  function ReleaseDateMessage(): string
  {
    "The release date can not be less than " + NatToString(LimitYearOfBirth) + "."
  }

  /** "The resume can not have lenght more than 500 characters" */
  function ResumeMessage(): string
  {
    "The resume can not have lenght more than " + NatToString(LimitResumeCharacters) + " characters"
  }

  /** validate_release_date: null and a date from 1900 on are kept as they are; an earlier date is refused. */
  function ValidateReleaseDate(value: Option<Date>): (r: Result<Option<Date>, string>)
    ensures r.Success? <==> value.None? || value.value.year >= LimitYearOfBirth
    ensures r.Success? ==> r.value == value
    ensures r.Failure? ==> r.error == ReleaseDateMessage()
  {
    match value
    case None => Success(None)
    case Some(d) => if d.year < LimitYearOfBirth then Failure(ReleaseDateMessage()) else Success(value)
  }

  /** validate_resume: null and a resume of at most 500 characters are kept as they are; a longer one is refused. */
  function ValidateResume(value: Option<string>): (r: Result<Option<string>, string>)
    ensures r.Success? <==> value.None? || |value.value| <= LimitResumeCharacters
    ensures r.Success? ==> r.value == value
    ensures r.Failure? ==> r.error == ResumeMessage()
  {
    match value
    case None => Success(None)
    case Some(text) => if |text| > LimitResumeCharacters then Failure(ResumeMessage()) else Success(value)
  }

  /**
   * get_rate on the reviews of one movie: None when the movie has no review
   * (Avg is None) or when the average is 0 (falsy); otherwise the average.
   */
  function GetRate(movieReviews: seq<Review>): (rate: Option<real>)
    ensures rate.Some? <==> movieReviews != [] && SumStars(movieReviews) != 0
    ensures rate.Some? ==> rate.value == AverageStars(movieReviews)
  {
    if movieReviews == [] then None
    else if Mean(movieReviews) == 0.0 then None
    else Some(Mean(movieReviews))
  }

  // Properties.

  /** The year threshold: 1899-12-31 is refused, 1900-01-01 is kept. */
  lemma ReleaseYearBoundary()
    ensures ValidateReleaseDate(Some(Date(1899, 12, 31))) == Failure("The release date can not be less than 1900.")
    ensures ValidateReleaseDate(Some(Date(1900, 1, 1))) == Success(Some(Date(1900, 1, 1)))
  {
    assert NatToString(1900) == "1900" by {
      assert NatToString(1900) == NatToString(190) + ['0'];
      assert NatToString(190) == NatToString(19) + ['0'];
    }
    assert ReleaseDateMessage() == "The release date can not be less than " + "1900" + ".";
    assert "The release date can not be less than " + "1900" + "." == "The release date can not be less than 1900.";
    assert ValidateReleaseDate(Some(Date(1899, 12, 31))) == Failure(ReleaseDateMessage());
  }

  /** The length threshold: 500 characters are kept, 501 refused with the message naming 500. */
  lemma ResumeLengthBoundary(value: string)
    ensures |value| == 500 ==> ValidateResume(Some(value)) == Success(Some(value))
    ensures |value| == 501 ==> ValidateResume(Some(value)) == Failure("The resume can not have lenght more than 500 characters")
  {
    assert NatToString(500) == "500" by {
      assert NatToString(500) == NatToString(50) + ['0'];
      assert NatToString(50) == NatToString(5) + ['0'];
    }
    assert ResumeMessage() == "The resume can not have lenght more than " + "500" + " characters";
    assert "The resume can not have lenght more than " + "500" + " characters" == "The resume can not have lenght more than 500 characters";
  }

  /**
   * On a value, the code as written refuses exactly what the intended
   * validators refuse, and always with a ValidationError; it differs in what
   * it returns and says, and on null, which it does not survive.
   */
  lemma SameVerdicts(date: Date, resume: string)
    ensures ValidateReleaseDateAsWritten(Some(date)).Success? <==> ValidateReleaseDate(Some(date)).Success?
    ensures ValidateReleaseDateAsWritten(Some(date)).Failure? ==> ValidateReleaseDateAsWritten(Some(date)).error.ValidationError?
    ensures ValidateResumeAsWritten(Some(resume)).Success? <==> ValidateResume(Some(resume)).Success?
    ensures ValidateResumeAsWritten(Some(resume)).Failure? ==> ValidateResumeAsWritten(Some(resume)).error.ValidationError?
  {
  }

  /**
   * Missing return: the release date 2010-07-16 passes the check, but the
   * validated value is None instead of the date, and a non-empty resume
   * validates to None instead of the text.
   */
  lemma AsWrittenDropsValues()
    ensures ValidateReleaseDateAsWritten(Some(Date(2010, 7, 16))) == Success(None)
    ensures ValidateReleaseDate(Some(Date(2010, 7, 16))) == Success(Some(Date(2010, 7, 16)))
    ensures ValidateResumeAsWritten(Some("A")) == Success(None)
    ensures ValidateResume(Some("A")) == Success(Some("A"))
  {
  }

  /**
   * The messages as written name other limits than the checks: 1899-12-31 is
   * refused with "less than 1990", and a 501-character resume with "more than
   * 200 characters".
   */
  lemma AsWrittenMessagesMisstateLimits(longResume: string)
    requires |longResume| == 501
    ensures ValidateReleaseDateAsWritten(Some(Date(1899, 12, 31))) == Failure(ValidationError("The release date can not be less than 1990"))
    ensures ValidateReleaseDateAsWritten(Some(Date(1899, 12, 31))).error.message != ValidateReleaseDate(Some(Date(1899, 12, 31))).error
    ensures ValidateResumeAsWritten(Some(longResume)) == Failure(ValidationError("The resume can not have lenght more than 200 characters"))
    ensures ValidateResumeAsWritten(Some(longResume)).error.message != ValidateResume(Some(longResume)).error
  {
    ReleaseYearBoundary();
    ResumeLengthBoundary(longResume);
    assert ReleaseDateMessageAsWritten[40] != ReleaseDateMessage()[40];
    assert ResumeMessageAsWritten[41] != ResumeMessage()[41];
  }

  /**
   * Null: a request that sends null for either nullable field ends in a
   * server error instead of being stored as null, while the intended
   * validators keep the null.
   */
  lemma AsWrittenFailsOnNull()
    ensures ValidateReleaseDateAsWritten(None).Failure? && ValidateReleaseDateAsWritten(None).error.ServerError?
    ensures ValidateReleaseDate(None) == Success(None)
    ensures ValidateResumeAsWritten(None).Failure? && ValidateResumeAsWritten(None).error.ServerError?
    ensures ValidateResume(None) == Success(None)
  {
  }

  /** A mean is zero exactly when the stars add up to zero. */
  lemma MeanZero(reviews: seq<Review>)
    requires reviews != []
    ensures Mean(reviews) == 0.0 <==> SumStars(reviews) == 0
  {
  }

  /**
   * get_rate gives a rate exactly when the movie has reviews whose stars do
   * not add up to zero; the rate is their mean, which lies in (0, 5] for
   * stars in [0, 5], and a missing rate is what the statistics report as an
   * average of 0.
   */
  lemma RateSpec(movieReviews: seq<Review>)
    ensures GetRate(movieReviews).Some? <==> movieReviews != [] && SumStars(movieReviews) != 0
    ensures GetRate(movieReviews).Some? ==> GetRate(movieReviews).value == Mean(movieReviews)
    ensures StarsInRange(movieReviews) && GetRate(movieReviews).Some? ==> 0.0 < GetRate(movieReviews).value <= 5.0
    ensures GetRate(movieReviews).None? <==> AverageStars(movieReviews) == 0.0
  {
    if movieReviews != [] {
      MeanZero(movieReviews);
      if StarsInRange(movieReviews) {
        AverageInRange(movieReviews);
      }
    }
  }
}
