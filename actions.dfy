/**
 * The server actions of the feedback application: validation and normalisation
 * of a submission followed by a single `create` on the record store, the listing
 * of all records newest first, and the database ping.
 *
 * The record store is an object holding the persisted records. What the remote
 * store answers (the id and creation time it assigns, or an exception) and
 * whether the cache revalidation throws are parameters of the operations.
 */
module Actions {
  import opened Optional
  import opened Text
  import opened Seqs

  /** A clock reading; the application only copies clock values around. */
  type Timestamp = int

  /** What the form sends to `submitFeedback`. An absent `otherSuggestion` is `None`. */
  datatype FeedbackFormData = FeedbackFormData(
    name: string,
    email: string,
    rating: int,
    improvements: seq<string>,
    otherSuggestion: Option<string>)

  /** The fields handed to the store's `create`; a JavaScript `null` suggestion is `None`. */
  datatype NewFeedback = NewFeedback(
    name: string,
    email: string,
    rating: int,
    improvements: seq<string>,
    otherSuggestion: Option<string>)

  /** A persisted record: the created fields plus the id and time the store assigns. */
  datatype Feedback = Feedback(
    id: string,
    name: string,
    email: string,
    rating: int,
    improvements: seq<string>,
    otherSuggestion: Option<string>,
    createdAt: Timestamp)

  datatype ValidationError = MissingRequiredFields | RatingOutOfRange | InvalidEmail

  function ErrorMessage(e: ValidationError): string {
    match e
    case MissingRequiredFields => "Name, email, and rating are required fields."
    case RatingOutOfRange => "Rating must be between 1 and 5."
    case InvalidEmail => "Please enter a valid email address."
  }

  const SubmitSuccessMessage := "Thank you for your feedback! It has been submitted successfully."
  const SubmitFailureMessage := "An error occurred while submitting your feedback. Please try again."
  const FetchFailureMessage := "Failed to fetch feedbacks."
  const HealthyMessage := "Database connection is healthy"
  const UnhealthyMessage := "Database connection failed"

  datatype SubmitResult =
    | SubmitSuccess(message: string, feedbackId: string)
    | SubmitFailure(error: string)

  /** The remote `create` call either returns the new record's id and creation time or throws. */
  datatype CreateReply = Created(id: string, createdAt: Timestamp) | CreateThrew

  // ---------------------------------------------------------------------------
  // The email pattern ^[^\s@]+@[^\s@]+\.[^\s@]+$

  /** The regular-expression class `[^\s@]`. */
  predicate IsEmailChar(c: char) {
    !IsWhitespace(c) && c != '@'
  }

  /** Every character of `s` from index `lo` up to (not including) `hi` is in `[^\s@]`. */
  predicate EmailCharsBetween(s: string, lo: int, hi: int)
    requires 0 <= lo <= hi <= |s|
  {
    forall k :: lo <= k < hi ==> IsEmailChar(s[k])
  }

  /**
   * The pattern read as a regular expression: three non-empty runs of `[^\s@]`
   * separated by an `@` at index `i` and a `.` at index `j`.
   */
  ghost predicate MatchesEmailRegex(s: string) {
    exists i, j :: 0 < i && i + 1 < j && j + 1 < |s| && s[i] == '@' && s[j] == '.'
                   && EmailCharsBetween(s, 0, i) && EmailCharsBetween(s, i + 1, j)
                   && EmailCharsBetween(s, j + 1, |s|)
  }

  /** There is a `.` strictly inside `s[lo..]`, with at least one character on each side. */
  predicate HasInnerDot(s: string, lo: nat) {
    exists k :: lo < k < |s| - 1 && s[k] == '.'
  }

  /**
   * The address check, computed from the first `@`: it splits the
   * string into a non-empty local part and a domain, neither of which holds
   * an `@` or whitespace, and the domain has an inner dot.
   */
  predicate IsValidEmail(s: string) {
    var at := IndexOf(s, '@');
    0 < at < |s| && EmailCharsBetween(s, 0, at) && EmailCharsBetween(s, at + 1, |s|)
    && HasInnerDot(s, at + 1)
  }

  /** The address check accepts exactly the strings the regular expression matches. */
  lemma IsValidEmailIffRegex(s: string)
    ensures IsValidEmail(s) <==> MatchesEmailRegex(s)
  {
    if IsValidEmail(s) {
      ValidEmailMatchesRegex(s);
    }
    if MatchesEmailRegex(s) {
      var i, j :| 0 < i && i + 1 < j && j + 1 < |s| && s[i] == '@' && s[j] == '.'
                  && EmailCharsBetween(s, 0, i) && EmailCharsBetween(s, i + 1, j)
                  && EmailCharsBetween(s, j + 1, |s|);
      RegexMatchIsValidEmail(s, i, j);
    }
  }

  lemma ValidEmailMatchesRegex(s: string)
    requires IsValidEmail(s)
    ensures MatchesEmailRegex(s)
  {
    var at := IndexOf(s, '@');
    var j :| at + 1 < j < |s| - 1 && s[j] == '.';
    assert EmailCharsBetween(s, at + 1, j);
    assert EmailCharsBetween(s, j + 1, |s|);
  }

  lemma RegexMatchIsValidEmail(s: string, i: int, j: int)
    requires 0 < i && i + 1 < j && j + 1 < |s| && s[i] == '@' && s[j] == '.'
    requires EmailCharsBetween(s, 0, i) && EmailCharsBetween(s, i + 1, j)
    requires EmailCharsBetween(s, j + 1, |s|)
    ensures IsValidEmail(s)
  {
    assert IndexOf(s, '@') == i;
    assert EmailCharsBetween(s, i + 1, |s|) by {
      forall k | i + 1 <= k < |s|
        ensures IsEmailChar(s[k])
      {
        if k < j {
          assert EmailCharsBetween(s, i + 1, j);
        } else if k > j {
          assert EmailCharsBetween(s, j + 1, |s|);
        }
      }
    }
  }

  /** An accepted address contains no whitespace; in particular trimming it changes nothing. */
  lemma ValidEmailIsTrimmed(s: string)
    requires IsValidEmail(s)
    ensures NoWhitespace(s)
    ensures Trim(s) == s
  {
    var at := IndexOf(s, '@');
    forall k | 0 <= k < |s|
      ensures !IsWhitespace(s[k])
    {
      if k < at {
        assert EmailCharsBetween(s, 0, at);
      } else if k > at {
        assert EmailCharsBetween(s, at + 1, |s|);
      }
    }
    TrimNoWhitespace(s);
  }

  /** Lower-casing an accepted address yields an accepted address. */
  lemma LowerKeepsEmailValid(s: string)
    requires IsValidEmail(s)
    ensures IsValidEmail(ToLowerAscii(s))
  {
    var l := ToLowerAscii(s);
    var at := IndexOf(s, '@');
    assert forall k :: 0 <= k < |s| ==> (l[k] == '@' <==> s[k] == '@');
    assert forall k :: 0 <= k < |s| ==> (IsEmailChar(l[k]) <==> IsEmailChar(s[k]));
    assert IndexOf(l, '@') == at;
    var j :| at + 1 < j < |s| - 1 && s[j] == '.';
    assert l[j] == '.';
  }

  // ---------------------------------------------------------------------------
  // Validation and normalisation

  /** The first of the three checks, in their fixed order, that the submission fails. */
  function FirstFailedCheck(data: FeedbackFormData): Option<ValidationError> {
    if data.name == "" || data.email == "" || data.rating == 0 then Some(MissingRequiredFields)
    else if data.rating < 1 || data.rating > 5 then Some(RatingOutOfRange)
    else if !IsValidEmail(data.email) then Some(InvalidEmail)
    else None
  }

  /** `otherSuggestion?.trim() || null`. */
  function NormalizeSuggestion(suggestion: Option<string>): Option<string> {
    match suggestion
    case None => None
    case Some(text) => if Trim(text) == "" then None else Some(Trim(text))
  }

  /** The record data built for `create`. */
  function Normalize(data: FeedbackFormData): NewFeedback {
    NewFeedback(Trim(data.name), ToLowerAscii(Trim(data.email)), data.rating,
                data.improvements, NormalizeSuggestion(data.otherSuggestion))
  }

  /** The response `submitFeedback` returns for a given store reply. */
  function SubmitResponse(data: FeedbackFormData, reply: CreateReply, revalidateThrows: bool): SubmitResult {
    match FirstFailedCheck(data)
    case Some(e) => SubmitFailure(ErrorMessage(e))
    case None =>
      match reply
      case CreateThrew => SubmitFailure(SubmitFailureMessage)
      case Created(id, _) => if revalidateThrows then SubmitFailure(SubmitFailureMessage) else SubmitSuccess(SubmitSuccessMessage, id)
  }

  /** What passing all three checks tells about the submission. */
  lemma PassedChecks(data: FeedbackFormData)
    requires FirstFailedCheck(data) == None
    ensures data.name != "" && data.email != "" && 1 <= data.rating <= 5 && IsValidEmail(data.email)
  {
  }

  /** An empty name, an empty email or a zero rating is reported as missing, before any other check. */
  lemma RequiredFieldsCheckedFirst(data: FeedbackFormData)
    ensures FirstFailedCheck(data) == Some(MissingRequiredFields)
            <==> data.name == "" || data.email == "" || data.rating == 0
    ensures data.rating == 0 ==> FirstFailedCheck(data) != Some(RatingOutOfRange)
  {
  }

  /** With the required fields present, a rating outside 1..5 is the error reported. */
  lemma RatingRangeChecked(data: FeedbackFormData)
    requires data.name != "" && data.email != "" && data.rating != 0
    ensures FirstFailedCheck(data) == Some(RatingOutOfRange) <==> data.rating < 1 || data.rating > 5
  {
  }

  /** A submission passes validation exactly when all three checks hold. */
  lemma ValidationIff(data: FeedbackFormData)
    ensures FirstFailedCheck(data) == None
            <==> data.name != "" && 1 <= data.rating <= 5 && MatchesEmailRegex(data.email)
  {
    IsValidEmailIffRegex(data.email);
  }

  /** The pattern runs on the raw address, so a trailing space is rejected rather than trimmed. */
  lemma TrailingSpaceEmailRejected(data: FeedbackFormData)
    requires data.name != "" && 1 <= data.rating <= 5
    requires |data.email| > 0 && IsWhitespace(data.email[|data.email| - 1])
    ensures FirstFailedCheck(data) == Some(InvalidEmail)
  {
    if IsValidEmail(data.email) {
      ValidEmailIsTrimmed(data.email);
      assert false;
    }
  }

  /** The email stored for an accepted submission is its lower-cased address; trimming is a no-op there. */
  lemma NormalizedFields(data: FeedbackFormData)
    requires FirstFailedCheck(data) == None
    ensures Normalize(data).email == ToLowerAscii(data.email)
    ensures Normalize(data).name == Trim(data.name)
    ensures Normalize(data).rating == data.rating
    ensures Normalize(data).improvements == data.improvements
  {
    PassedChecks(data);
    ValidEmailIsTrimmed(data.email);
  }

  /** The stored suggestion is absent when the input is absent or blank, and the trimmed text otherwise. */
  lemma SuggestionNormalized(suggestion: Option<string>)
    ensures NormalizeSuggestion(suggestion) == None
            <==> suggestion == None || AllWhitespace(suggestion.value)
    ensures NormalizeSuggestion(suggestion) != None
            ==> NormalizeSuggestion(suggestion) == Some(Trim(suggestion.value))
                && NormalizeSuggestion(suggestion).value != ""
  {
    if suggestion.Some? {
      TrimEmptyIff(suggestion.value);
    }
  }

  /** A whitespace-only name passes the required check and is stored as the empty string. */
  lemma WhitespaceNameStoredEmpty(data: FeedbackFormData)
    requires data.name != "" && AllWhitespace(data.name)
    requires 1 <= data.rating <= 5 && IsValidEmail(data.email)
    ensures FirstFailedCheck(data) == None
    ensures Normalize(data).name == ""
  {
    TrimEmptyIff(data.name);
  }

  /** A stored address: accepted by the pattern and lower-case (and so also trimmed). */
  ghost predicate IsStoredEmail(e: string) {
    IsValidEmail(e) && NoUpperAscii(e)
  }

  /** A stored suggestion is absent or a non-empty trimmed text. */
  ghost predicate IsStoredSuggestion(o: Option<string>) {
    o.Some? ==> o.value != "" && IsTrimmed(o.value)
  }

  /** What every record the application creates satisfies. */
  ghost predicate WellFormed(f: NewFeedback) {
    1 <= f.rating <= 5 && IsStoredEmail(f.email) && IsTrimmed(f.name)
    && IsStoredSuggestion(f.otherSuggestion)
  }

  /** Lower-casing an accepted address gives a stored address. */
  lemma LoweredEmailIsStored(e: string)
    requires IsValidEmail(e)
    ensures IsStoredEmail(ToLowerAscii(e))
    ensures IsStoredEmail(ToLowerAscii(Trim(e)))
  {
    LowerKeepsEmailValid(e);
    ValidEmailIsTrimmed(e);
  }

  lemma NormalizedSuggestionIsStored(o: Option<string>)
    ensures IsStoredSuggestion(NormalizeSuggestion(o))
  {
    match o
    case None =>
    case Some(text) =>
      var t := Trim(text);
      assert t != "" ==> IsTrimmed(t);
  }

  /** Normalising an accepted submission yields a well-formed record. */
  lemma NormalizeWellFormed(data: FeedbackFormData)
    requires FirstFailedCheck(data) == None
    ensures WellFormed(Normalize(data))
  {
    PassedChecks(data);
    LoweredEmailIsStored(data.email);
    NormalizedSuggestionIsStored(data.otherSuggestion);
  }

  /** The failure response never carries the success fields, and says why it failed. */
  lemma SubmitResponseCases(data: FeedbackFormData, reply: CreateReply, revalidateThrows: bool)
    ensures SubmitResponse(data, reply, revalidateThrows).SubmitSuccess?
            <==> FirstFailedCheck(data) == None && reply.Created? && !revalidateThrows
    ensures SubmitResponse(data, reply, revalidateThrows).SubmitSuccess?
            ==> SubmitResponse(data, reply, revalidateThrows) == SubmitSuccess(SubmitSuccessMessage, reply.id)
    ensures FirstFailedCheck(data).Some?
            ==> SubmitResponse(data, reply, revalidateThrows) == SubmitFailure(ErrorMessage(FirstFailedCheck(data).value))
    ensures FirstFailedCheck(data) == None && (reply.CreateThrew? || revalidateThrows)
            ==> SubmitResponse(data, reply, revalidateThrows) == SubmitFailure(SubmitFailureMessage)
  {
  }

  // ---------------------------------------------------------------------------
  // The record store

  function Persisted(f: NewFeedback, id: string, createdAt: Timestamp): Feedback {
    Feedback(id, f.name, f.email, f.rating, f.improvements, f.otherSuggestion, createdAt)
  }

  function Fields(r: Feedback): NewFeedback {
    NewFeedback(r.name, r.email, r.rating, r.improvements, r.otherSuggestion)
  }

  function CreatedAt(f: Feedback): int {
    f.createdAt
  }

  /** Ordered by creation time, newest first. */
  predicate NewestFirst(s: seq<Feedback>) {
    SortedByKeyDesc(CreatedAt, s)
  }

  /** The records ordered by creation time, newest first (`orderBy: { createdAt: 'desc' }`). */
  function SortNewestFirst(s: seq<Feedback>): (r: seq<Feedback>)
    ensures NewestFirst(r)
    ensures multiset(r) == multiset(s)
    ensures forall i, j :: 0 <= i < j < |r| ==> r[i].createdAt >= r[j].createdAt
  {
    SortByKeyDesc(CreatedAt, s)
  }

  ghost predicate AllWellFormed(s: seq<Feedback>) {
    forall k :: 0 <= k < |s| ==> WellFormed(Fields(s[k]))
  }

  lemma AppendWellFormed(s: seq<Feedback>, r: Feedback)
    requires AllWellFormed(s) && WellFormed(Fields(r))
    ensures AllWellFormed(s + [r])
  {
    forall k | 0 <= k < |s| + 1
      ensures WellFormed(Fields((s + [r])[k]))
    {
      if k < |s| {
        assert (s + [r])[k] == s[k];
      }
    }
  }

  class FeedbackStore {
    var records: seq<Feedback>

    /** Every record in the store came from an accepted, normalised submission. */
    ghost predicate Valid()
      reads this
    {
      AllWellFormed(records)
    }

    constructor ()
      ensures records == [] && Valid()
    {
      records := [];
    }

    /** `prisma.feedback.create`: appends one record with the id and time the store assigns. */
    method Create(f: NewFeedback, id: string, createdAt: Timestamp) returns (r: Feedback)
      requires Valid() && WellFormed(f)
      modifies this
      ensures Valid()
      ensures r == Persisted(f, id, createdAt)
      ensures records == old(records) + [r]
    {
      r := Persisted(f, id, createdAt);
      assert Fields(r) == f;
      AppendWellFormed(records, r);
      records := records + [r];
    }

    /** `prisma.feedback.findMany` ordered by `createdAt` descending. */
    function FindManyNewestFirst(): (r: seq<Feedback>)
      reads this
      ensures NewestFirst(r) && multiset(r) == multiset(records)
    {
      SortNewestFirst(records)
    }
  }

  /**
   * `submitFeedback`: validation in a fixed order; on success exactly one `create`
   * with the normalised fields. A throwing `create` leaves the store unchanged;
   * a throwing revalidation after a successful `create` keeps the record but
   * reports the generic failure.
   */
  method SubmitFeedback(store: FeedbackStore, data: FeedbackFormData, reply: CreateReply, revalidateThrows: bool)
    returns (r: SubmitResult)
    requires store.Valid()
    modifies store
    ensures store.Valid()
    ensures r == SubmitResponse(data, reply, revalidateThrows)
    ensures store.records ==
      if FirstFailedCheck(data) == None && reply.Created?
      then old(store.records) + [Persisted(Normalize(data), reply.id, reply.createdAt)]
      else old(store.records)
  {
    var failed := FirstFailedCheck(data);
    if failed.Some? {
      return SubmitFailure(ErrorMessage(failed.value));
    }
    if reply.CreateThrew? {
      return SubmitFailure(SubmitFailureMessage);
    }
    NormalizeWellFormed(data);
    var feedback := store.Create(Normalize(data), reply.id, reply.createdAt);
    if revalidateThrows {
      return SubmitFailure(SubmitFailureMessage);
    }
    r := SubmitSuccess(SubmitSuccessMessage, feedback.id);
  }

  datatype FetchResult = FetchSuccess(data: seq<Feedback>) | FetchFailure(error: string)

  /** `getFeedbacks`: the store's records newest first, or the fetch error when the query throws. */
  function GetFeedbacks(store: FeedbackStore, queryThrows: bool): (r: FetchResult)
    reads store
    ensures r.FetchSuccess? <==> !queryThrows
    ensures r.FetchSuccess? ==> NewestFirst(r.data) && multiset(r.data) == multiset(store.records)
    ensures r.FetchFailure? ==> r.error == FetchFailureMessage
  {
    if queryThrows then FetchFailure(FetchFailureMessage) else FetchSuccess(store.FindManyNewestFirst())
  }

  datatype HealthResult =
    | HealthSuccess(message: string, timestamp: Timestamp)
    | HealthFailure(error: string, timestamp: Timestamp)
  {
    predicate Success() { HealthSuccess? }
  }

  /** `healthCheck`: the outcome of `SELECT 1`, stamped with the current time on both paths. */
  function HealthCheck(queryThrows: bool, now: Timestamp): (r: HealthResult)
    ensures r.Success() <==> !queryThrows
    ensures r.timestamp == now
    ensures r.Success() ==> r.message == HealthyMessage
    ensures !r.Success() ==> r.error == UnhealthyMessage
  {
    if queryThrows then HealthFailure(UnhealthyMessage, now) else HealthSuccess(HealthyMessage, now)
  }
}
