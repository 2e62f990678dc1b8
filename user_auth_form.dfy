/** The passwordless sign-in form: email normalisation, error classification and the loading flag. */
module UserAuthForm {
  import opened Optional
  import opened Text
  import opened Records

  const RateLimitTitle := "Too many sign-in attempts"
  const RateLimitDescription :=
    "Supabase limits how many sign-in emails can be sent. Please wait a few minutes and try again, or use a different email."
  const GenericErrorTitle := "Something went wrong."
  const SentTitle := "Check your email"
  const SentDescription := "We sent you a login link. Be sure to check your spam too."

  /** The address sent to the backend: the input lowercased. */
  function NormaliseEmail(input: string): (email: string)
    ensures |email| == |input| && IsLower(email)
    ensures Lower(email) == email
    ensures forall i :: 0 <= i < |input| && !('A' <= input[i] <= 'Z') ==> email[i] == input[i]
    ensures forall i :: 0 <= i < |input| && 'A' <= input[i] <= 'Z' ==> email[i] as int == input[i] as int + 32
  {
    LowerIdempotent(input);
    Lower(input)
  }

  /** `/rate limit|too many requests/i` */
  predicate IsRateLimit(message: string) {
    Contains(Lower(message), "rate limit") || Contains(Lower(message), "too many requests")
  }

  /** The classification ignores letter case and finds the phrases anywhere in the message. */
  lemma IsRateLimitIff(message: string)
    ensures IsRateLimit(message) <==>
      (exists i :: OccursAt(Lower(message), "rate limit", i))
      || (exists i :: OccursAt(Lower(message), "too many requests", i))
  {
    ContainsIff(Lower(message), "rate limit");
    ContainsIff(Lower(message), "too many requests");
  }

  lemma IsRateLimitIgnoresCase(x: string, y: string)
    requires Lower(x) == Lower(y)
    ensures IsRateLimit(x) == IsRateLimit(y)
  {
  }

  /** The one toast a submission shows, given the backend's error (if any). */
  function SignInToast(error: Option<string>): (t: Toast)
    ensures t.destructive <==> error.Some?
    ensures error.None? ==> t.title == SentTitle && t.description == SentDescription
    ensures error.Some? && IsRateLimit(error.value) ==>
      t.title == RateLimitTitle && t.description == RateLimitDescription
    ensures error.Some? && !IsRateLimit(error.value) ==>
      t.title == GenericErrorTitle && t.description == error.value
  {
    match error
    case None => Toast(SentTitle, SentDescription, false)
    case Some(message) =>
      if IsRateLimit(message) then Toast(RateLimitTitle, RateLimitDescription, true)
      else Toast(GenericErrorTitle, message, true)
  }

  /** The form's only state is `isLoading`, which disables the input and the button. */
  class AuthForm {
    var isLoading: bool

    constructor ()
      ensures !isLoading
    {
      isLoading := false;
    }

    /** Up to the `await`: raise the flag and produce the address to send. */
    method BeginSignIn(input: string) returns (email: string)
      modifies this
      ensures isLoading
      ensures email == NormaliseEmail(input)
    {
      isLoading := true;
      email := NormaliseEmail(input);
    }

    /** After the `await`: drop the flag, then pick the toast from the outcome. */
    method CompleteSignIn(error: Option<string>) returns (toast: Toast)
      modifies this
      ensures !isLoading
      ensures toast == SignInToast(error)
    {
      isLoading := false;
      toast := SignInToast(error);
    }

    /** `onSubmit`, with the backend's answer to the request for `email` given as `error`. */
    method OnSubmit(input: string, error: Option<string>) returns (email: string, toast: Toast)
      modifies this
      ensures !isLoading
      ensures email == NormaliseEmail(input)
      ensures toast == SignInToast(error)
    {
      email := BeginSignIn(input);
      toast := CompleteSignIn(error);
    }
  }
}
