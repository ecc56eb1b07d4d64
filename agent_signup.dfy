/** The agent self-registration page: its two ordered checks and the request it sends. */
module AgentSignup {
  import opened Wrappers
  import opened AgentEmail

  /** The body of the signup request. */
  datatype SignupRequest = SignupRequest(
    email: string, password: string, confirmPass: string, name: string, fullNumber: string)

  const DefaultCountryCode: string := "+91"

  const SuffixError: string := "Email must be an @agent.com."
  const MismatchError: string := "Passwords do not match."
  const CreatedMessage: string := "Agent Created Successfully,Now you can Login"
  const SignupError: string := "An error occurred. Please try again."

  /** The country code followed by the number as typed; nothing checks the number. */
  function FullNumber(countryCode: string, number: string): (r: string)
    ensures |r| == |countryCode| + |number|
    ensures r[..|countryCode|] == countryCode && r[|countryCode|..] == number
  {
    countryCode + number
  }

  /** The number's parts can be recovered when the country code is known. */
  lemma FullNumberInjective(countryCode: string, a: string, b: string)
    requires FullNumber(countryCode, a) == FullNumber(countryCode, b)
    ensures a == b
  {
    assert a == FullNumber(countryCode, a)[|countryCode|..];
  }

  /** The signup checks: the domain first, then the password confirmation. */
  function ValidateSignup(email: string, password: string, confirmPass: string): (r: Outcome<string>)
    ensures r.Pass? <==> IsAgentEmail(email) && password == confirmPass
    ensures !IsAgentEmail(email) ==> r == Fail(SuffixError)
    ensures IsAgentEmail(email) && password != confirmPass ==> r == Fail(MismatchError)
  {
    if !IsAgentEmail(email) then Fail(SuffixError)
    else if password != confirmPass then Fail(MismatchError)
    else Pass
  }

  /** Every address of the form `local@agent.com` gets past the first check. */
  lemma AgentAddressReachesPasswordCheck(local: string, password: string, confirmPass: string)
    ensures ValidateSignup(local + AgentDomain, password, confirmPass).Pass? <==> password == confirmPass
  {
    AgentAddress(local);
  }

  /** The signup form and its notifications. */
  class SignupPage {
    var name: string
    var email: string
    var countryCode: string
    var number: string
    var password: string
    var confirmPass: string
    var loading: bool
    var error: string
    var success: string

    /** An empty form. */
    constructor ()
      ensures name == "" && email == "" && countryCode == DefaultCountryCode && number == ""
      ensures password == "" && confirmPass == "" && !loading && error == "" && success == ""
    {
      name := "";
      email := "";
      countryCode := DefaultCountryCode;
      number := "";
      password := "";
      confirmPass := "";
      loading := false;
      error := "";
      success := "";
    }

    /**
     * The form was submitted. A failing check ends the submission with its
     * message; otherwise the request is sent and returned, and `posted` says
     * whether the server accepted it. An earlier success message is not cleared.
     */
    method HandleSignup(posted: bool) returns (request: Option<SignupRequest>)
      modifies this`loading, this`error, this`success
      ensures request.Some? <==> ValidateSignup(email, password, confirmPass).Pass?
      ensures request.Some? ==> request.value == SignupRequest(email, password, confirmPass, name, FullNumber(countryCode, number))
      ensures ValidateSignup(email, password, confirmPass).Fail? ==>
                error == ValidateSignup(email, password, confirmPass).error && success == old(success)
      ensures request.Some? && posted ==> success == CreatedMessage && error == ""
      ensures request.Some? && !posted ==> error == SignupError && success == old(success)
      ensures !loading
    {
      loading := true;
      error := "";

      var fullNumber := countryCode + number;

      if !IsAgentEmail(email) {
        error := SuffixError;
        loading := false;
        return None;
      }

      if password != confirmPass {
        error := MismatchError;
        loading := false;
        return None;
      }

      request := Some(SignupRequest(email, password, confirmPass, name, fullNumber));
      if posted {
        success := CreatedMessage;
      } else {
        error := SignupError;
      }
      loading := false;
    }
  }
}
