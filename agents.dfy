/**
 * The administrator's agents page: the ordered checks of the add-agent form,
 * the request it sends, and removing an agent by id after a deletion.
 */
module Agents {
  import opened Wrappers
  import opened Lists
  import opened AgentEmail

  datatype Agent = Agent(id: string, name: string, email: string, mobile: string, status: string)

  /** The add-agent form as typed; the mobile number is the local part only. */
  datatype AgentForm = AgentForm(name: string, email: string, mobile: string, password: string)

  /** The body of the add-agent request. */
  datatype AgentRequest = AgentRequest(name: string, email: string, mobile: string, password: string, status: string)

  const EmptyForm: AgentForm := AgentForm("", "", "", "")
  const DefaultCountryCode: string := "+91"
  const DefaultStatus: string := "Available"

  const SuffixError: string := "Email must be an @agent.com."
  const DuplicateError: string := "An agent with this email already exists."
  const MobileError: string := "Please enter a valid 10-digit mobile number."
  const AddedMessage: string := "Agent added successfully!"
  const AddError: string := "Failed to add agent. Email may already exist."
  const FetchError: string := "Failed to fetch agents. Please try again."
  const DeletedMessage: string := "Agent deleted successfully!"
  const DeleteError: string := "Failed to delete agent."

  /** Some listed agent already uses `email` (exact, case-sensitive comparison). */
  predicate EmailTaken(agents: seq<Agent>, email: string) {
    exists i :: 0 <= i < |agents| && agents[i].email == email
  }

  /** An e-mail is taken exactly when some listed agent carries it. */
  lemma EmailTakenIffListed(agents: seq<Agent>, email: string)
    ensures EmailTaken(agents, email) <==> exists a :: a in agents && a.email == email
  {
    if exists a :: a in agents && a.email == email {
      var a :| a in agents && a.email == email;
      var i :| 0 <= i < |agents| && agents[i] == a;
    }
  }

  predicate IsDigit(c: char) {
    '0' <= c <= '9'
  }

  /** The whole text is exactly ten ASCII digits. */
  predicate IsTenDigitMobile(s: string) {
    |s| == 10 && forall i :: 0 <= i < |s| ==> IsDigit(s[i])
  }

  /**
   * The mobile check accepts a bare ten-digit number and refuses a short one,
   * one with a space in it and one that already carries a country code.
   */
  lemma TenDigitMobileExamples()
    ensures IsTenDigitMobile("9876543210")
    ensures !IsTenDigitMobile("987654321")
    ensures !IsTenDigitMobile("98765 43210")
    ensures !IsTenDigitMobile("+919876543210")
    ensures !IsTenDigitMobile("98765o4321")
  {
    assert !IsDigit("98765o4321"[5]);
  }

  /** Every check the form fails, in the order the page performs them. */
  function FailedChecks(agents: seq<Agent>, form: AgentForm): seq<string> {
    (if IsAgentEmail(form.email) then [] else [SuffixError])
    + (if EmailTaken(agents, form.email) then [DuplicateError] else [])
    + (if IsTenDigitMobile(form.mobile) then [] else [MobileError])
  }

  /** The outcome of the add-agent checks: the first one that fails, or Pass. */
  function ValidateAgent(agents: seq<Agent>, form: AgentForm): (r: Outcome<string>)
    ensures r.Pass? <==> IsAgentEmail(form.email) && !EmailTaken(agents, form.email) && IsTenDigitMobile(form.mobile)
    ensures r.Pass? <==> FailedChecks(agents, form) == []
    ensures r.Fail? ==> r.error == FailedChecks(agents, form)[0]
  {
    if !IsAgentEmail(form.email) then Fail(SuffixError)
    else if EmailTaken(agents, form.email) then Fail(DuplicateError)
    else if !IsTenDigitMobile(form.mobile) then Fail(MobileError)
    else Pass
  }

  /** A wrong domain is reported whatever else is wrong with the form. */
  lemma SuffixCheckedFirst(agents: seq<Agent>, form: AgentForm)
    requires !IsAgentEmail(form.email)
    ensures ValidateAgent(agents, form) == Fail(SuffixError)
  {
  }

  /** A bad mobile number is reported only when the e-mail is acceptable and new. */
  lemma MobileCheckedLast(agents: seq<Agent>, form: AgentForm)
    ensures ValidateAgent(agents, form) == Fail(MobileError)
            <==> IsAgentEmail(form.email) && !EmailTaken(agents, form.email) && !IsTenDigitMobile(form.mobile)
  {
  }

  /** A form that passes the checks cannot duplicate a listed agent's e-mail. */
  lemma AcceptedFormIsNew(agents: seq<Agent>, form: AgentForm)
    requires ValidateAgent(agents, form).Pass?
    ensures forall a :: a in agents ==> a.email != form.email
  {
    forall a | a in agents
      ensures a.email != form.email
    {
      var i :| 0 <= i < |agents| && agents[i] == a;
    }
  }

  /** The status sent: the selected one, or "Available" when none was selected. */
  function SubmittedStatus(selected: string): (r: string)
    ensures r != ""
    ensures selected != "" ==> r == selected
    ensures selected == "" ==> r == DefaultStatus
  {
    if selected == "" then DefaultStatus else selected
  }

  /** The request an accepted form sends: the country code is prefixed to the mobile number. */
  function AgentRequestFor(form: AgentForm, countryCode: string, selectedStatus: string): (r: AgentRequest)
    ensures r.name == form.name && r.email == form.email && r.password == form.password
    ensures r.status == SubmittedStatus(selectedStatus)
    ensures |r.mobile| == |countryCode| + |form.mobile|
    ensures r.mobile[..|countryCode|] == countryCode && r.mobile[|countryCode|..] == form.mobile
  {
    AgentRequest(form.name, form.email, countryCode + form.mobile, form.password, SubmittedStatus(selectedStatus))
  }

  /** The mobile number of an accepted form is the country code and then ten digits. */
  lemma AcceptedMobileShape(agents: seq<Agent>, form: AgentForm, countryCode: string, selectedStatus: string)
    requires ValidateAgent(agents, form).Pass?
    ensures var m := AgentRequestFor(form, countryCode, selectedStatus).mobile;
            |m| == |countryCode| + 10 && m[..|countryCode|] == countryCode
            && forall i :: |countryCode| <= i < |m| ==> IsDigit(m[i])
  {
    var m := AgentRequestFor(form, countryCode, selectedStatus).mobile;
    assert forall i :: |countryCode| <= i < |m| ==> m[i] == form.mobile[i - |countryCode|];
  }

  /** The list after the server deleted agent `id`. */
  function RemoveAgentById(agents: seq<Agent>, id: string): (r: seq<Agent>)
    ensures forall a :: a in r <==> a in agents && a.id != id
    ensures forall a :: multiset(r)[a] == (if a.id != id then multiset(agents)[a] else 0)
    ensures Subsequence(r, agents)
  {
    var p := (a: Agent) => a.id != id;
    FilterMultiplicity(agents, p);
    FilterIsSubsequence(agents, p);
    Filter(agents, p)
  }

  /** Removing an id that is not listed leaves the list as it was. */
  lemma RemoveAgentAbsent(agents: seq<Agent>, id: string)
    requires forall a :: a in agents ==> a.id != id
    ensures RemoveAgentById(agents, id) == agents
  {
    FilterAll(agents, (a: Agent) => a.id != id);
  }

  /** Deleting an agent never makes a taken e-mail of another agent free. */
  lemma RemoveKeepsOtherEmails(agents: seq<Agent>, id: string, email: string)
    requires exists a :: a in agents && a.id != id && a.email == email
    ensures EmailTaken(RemoveAgentById(agents, id), email)
  {
    var a :| a in agents && a.id != id && a.email == email;
    var r := RemoveAgentById(agents, id);
    assert a in r;
    var i :| 0 <= i < |r| && r[i] == a;
  }

  /** The agents page: the list, the add-agent form, notifications and the delete dialog. */
  class AgentsPage {
    var agents: seq<Agent>
    var form: AgentForm
    var countryCode: string
    var selectedStatus: string
    var loading: bool
    var error: string
    var success: string
    var deleteModalOpen: bool
    var agentToDelete: Option<string>

    /** The page before the agent list has arrived. */
    constructor ()
      ensures agents == [] && form == EmptyForm && countryCode == DefaultCountryCode && selectedStatus == ""
      ensures !loading && error == "" && success == "" && !deleteModalOpen && agentToDelete == None
    {
      agents := [];
      form := EmptyForm;
      countryCode := DefaultCountryCode;
      selectedStatus := "";
      loading := false;
      error := "";
      success := "";
      deleteModalOpen := false;
      agentToDelete := None;
    }

    /** The fetch of the agent list finished; `fetched` is None when it failed. */
    method AgentsLoaded(fetched: Option<seq<Agent>>)
      modifies this`agents, this`error
      ensures fetched.Some? ==> agents == fetched.value && error == old(error)
      ensures fetched.None? ==> agents == old(agents) && error == FetchError
    {
      if fetched.Some? {
        agents := fetched.value;
      } else {
        error := FetchError;
      }
    }

    /**
     * The add-agent form was submitted. The checks run in order and the first
     * that fails ends the submission with its message; otherwise the request
     * is sent and returned, and `posted` says whether the server accepted it.
     */
    method AddAgent(posted: bool) returns (request: Option<AgentRequest>)
      modifies this`form, this`loading, this`error, this`success
      ensures request.Some? <==> ValidateAgent(agents, old(form)).Pass?
      ensures request.Some? ==> request.value == AgentRequestFor(old(form), countryCode, selectedStatus)
      ensures ValidateAgent(agents, old(form)).Fail? ==>
                error == ValidateAgent(agents, old(form)).error && success == "" && form == old(form)
      ensures request.Some? && posted ==> success == AddedMessage && error == "" && form == EmptyForm
      ensures request.Some? && !posted ==> error == AddError && success == "" && form == old(form)
      ensures !loading
    {
      loading := true;
      error := "";
      success := "";

      if !IsAgentEmail(form.email) {
        error := SuffixError;
        loading := false;
        return None;
      }

      var emailExists := exists i :: 0 <= i < |agents| && agents[i].email == form.email;
      if emailExists {
        error := DuplicateError;
        loading := false;
        return None;
      }

      if !IsTenDigitMobile(form.mobile) {
        error := MobileError;
        loading := false;
        return None;
      }

      var fullMobileNumber := countryCode + form.mobile;
      var status := if selectedStatus == "" then DefaultStatus else selectedStatus;
      request := Some(AgentRequest(form.name, form.email, fullMobileNumber, form.password, status));
      if posted {
        success := AddedMessage;
        form := EmptyForm;
      } else {
        error := AddError;
      }
      loading := false;
    }

    /** The trash button of agent `id` was pressed. */
    method DeleteClick(id: string)
      modifies this`agentToDelete, this`deleteModalOpen
      ensures agentToDelete == Some(id) && deleteModalOpen
    {
      agentToDelete := Some(id);
      deleteModalOpen := true;
    }

    /** The dialog was cancelled. */
    method CloseModal()
      modifies this`deleteModalOpen
      ensures !deleteModalOpen
    {
      deleteModalOpen := false;
    }

    /**
     * The deletion request for `id` finished; `deleted` says whether the server
     * accepted it. The dialog closes either way. A missing id matches no agent.
     */
    method DeleteAgent(id: Option<string>, deleted: bool)
      modifies this`agents, this`success, this`error, this`deleteModalOpen
      ensures deleted && id.Some? ==> agents == RemoveAgentById(old(agents), id.value)
      ensures deleted && id.None? ==> agents == old(agents)
      ensures deleted ==> success == DeletedMessage && error == old(error)
      ensures !deleted ==> agents == old(agents) && error == DeleteError && success == old(success)
      ensures !deleteModalOpen
    {
      if deleted {
        if id.Some? {
          agents := RemoveAgentById(agents, id.value);
        }
        success := DeletedMessage;
      } else {
        error := DeleteError;
      }
      deleteModalOpen := false;
    }

    /** The dialog's Delete button: deletes the agent chosen by the trash button. */
    method ConfirmDeletion(deleted: bool)
      modifies this`agents, this`success, this`error, this`deleteModalOpen
      ensures deleted && old(agentToDelete).Some? ==> agents == RemoveAgentById(old(agents), old(agentToDelete).value)
      ensures deleted && old(agentToDelete).None? ==> agents == old(agents)
      ensures deleted ==> success == DeletedMessage && error == old(error)
      ensures !deleted ==> agents == old(agents) && error == DeleteError && success == old(success)
      ensures !deleteModalOpen
    {
      DeleteAgent(agentToDelete, deleted);
    }
  }
}
