/** Agent management: the roster of help-desk agents, an invitation flow
    (fill the form, preview the invitation, send it, and add the agent only
    when the mail service accepts), and editing an agent in place. The mail
    service's answer is a parameter. */
module AgentRoster {
  import opened Base

  /** One agent. */
  datatype Agent = Agent(id: int, name: string, email: string, role: string)

  /** The new-agent form. */
  datatype AgentForm = AgentForm(name: string, email: string, role: string)

  /** The mail settings: the sender address and the service key. */
  datatype EmailConfig = EmailConfig(from: string, apiKey: string)

  /** The page: the roster, which dialogs are open, the new-agent form, the
      agent under edit and whether an invitation is in flight. */
  datatype Page = Page(
    agents: seq<Agent>,
    createOpen: bool,
    editOpen: bool,
    previewOpen: bool,
    form: AgentForm,
    editing: Option<Agent>,
    sending: bool)

  /** What the operator is told. */
  datatype Notice = Done | FieldsMissing | EmailNotConfigured | InviteSent(to: string) | SendFailed(message: string)

  /** What the mail service answered: accepted, or failed with a message
      that may be empty. */
  datatype InviteResult = Accepted | Rejected(error: string)

  /** What an invitation carries to the mail service. */
  datatype Invitation = Invitation(to: string, name: string, role: string, from: string, apiKey: string)

  const UnknownError := "An unknown error occurred."

  const EmptyForm := AgentForm("", "", "")

  /** The roster the page starts with. */
  const InitialAgents := [
    Agent(1, "John Doe", "john.doe@example.com", "Admin"),
    Agent(2, "Jane Smith", "jane.smith@example.com", "Agent"),
    Agent(3, "Peter Jones", "peter.jones@example.com", "Viewer")]

  /** The mail settings before any are saved. */
  const DefaultEmailConfig := EmailConfig("", "")

  /** The page as it opens. */
  function InitialPage(): (p: Page)
    ensures |p.agents| == 3 && p.form == EmptyForm && !p.sending
    ensures !p.createOpen && !p.editOpen && !p.previewOpen && p.editing.None?
  {
    Page(InitialAgents, false, false, false, EmptyForm, None, false)
  }

  /** Every field of the form is filled in. */
  predicate FormComplete(f: AgentForm) {
    f.name != "" && f.email != "" && f.role != ""
  }

  /** Mail can be sent: both settings are filled in. */
  predicate MailConfigured(c: EmailConfig) {
    c.apiKey != "" && c.from != ""
  }

  /** Preview: refused while a field is empty, then refused while mail is
      not configured; otherwise the form dialog closes and the preview
      opens. */
  function PreviewEmail(p: Page, config: EmailConfig): (r: (Page, Notice))
    ensures !FormComplete(p.form) ==> r == (p, FieldsMissing)
    ensures FormComplete(p.form) && !MailConfigured(config) ==> r == (p, EmailNotConfigured)
    ensures FormComplete(p.form) && MailConfigured(config) ==>
      r == (p.(createOpen := false, previewOpen := true), Done)
  {
    if !FormComplete(p.form) then (p, FieldsMissing)
    else if !MailConfigured(config) then (p, EmailNotConfigured)
    else (p.(createOpen := false, previewOpen := true), Done)
  }

  /** With the default settings a preview never changes the page. */
  lemma DefaultConfigBlocksPreview(p: Page)
    ensures PreviewEmail(p, DefaultEmailConfig).0 == p
    ensures PreviewEmail(p, DefaultEmailConfig).1 != Done
  {
  }

  /** The first half of a create: the indicator comes on and the form's
      details go to the mail service with the settings. */
  function BeginCreate(p: Page, config: EmailConfig): (r: (Page, Invitation))
    ensures r.0.sending && r.0.(sending := p.sending) == p
    ensures r.1 == Invitation(p.form.email, p.form.name, p.form.role, config.from, config.apiKey)
  {
    (p.(sending := true), Invitation(p.form.email, p.form.name, p.form.role, config.from, config.apiKey))
  }

  /** The second half of a create. `started` is the page as the handler saw
      it when it began. Acceptance sets the roster to that roster plus the
      form's agent under a fresh identifier, closes the preview and clears
      the form; a rejection leaves everything but the indicator alone and
      reports the service's message, or a fixed one when it is empty. The
      indicator goes off either way. */
  function FinishCreate(current: Page, started: Page, result: InviteResult, freshId: int): (r: (Page, Notice))
    ensures !r.0.sending
    ensures result.Accepted? ==>
      && r.0.agents == started.agents + [Agent(freshId, started.form.name, started.form.email, started.form.role)]
      && !r.0.previewOpen && r.0.form == EmptyForm
      && r.1 == InviteSent(started.form.email)
    ensures result.Rejected? ==>
      && r.0 == current.(sending := false)
      && r.1 == SendFailed(if result.error != "" then result.error else UnknownError)
  {
    match result
    case Accepted =>
      var agent := Agent(freshId, started.form.name, started.form.email, started.form.role);
      (current.(agents := started.agents + [agent], previewOpen := false, form := EmptyForm, sending := false),
       InviteSent(started.form.email))
    case Rejected(error) =>
      (current.(sending := false), SendFailed(if error != "" then error else UnknownError))
  }

  /** A whole create with nothing happening while the service answers. */
  function CreateAgent(p: Page, config: EmailConfig, result: InviteResult, freshId: int): (r: (Page, Notice))
    ensures !r.0.sending
    ensures result.Rejected? ==> r.0.agents == p.agents && r.0.form == p.form
    ensures result.Accepted? ==>
      && |r.0.agents| == |p.agents| + 1
      && r.0.agents[..|p.agents|] == p.agents
      && r.0.agents[|p.agents|] == Agent(freshId, p.form.name, p.form.email, p.form.role)
  {
    var (started, _) := BeginCreate(p, config);
    var r := FinishCreate(started, p, result, freshId);
    assert result.Accepted? ==> r.0.agents[..|p.agents|] == p.agents;
    r
  }

  /** The confirm button that starts a create is disabled while an
      invitation is in flight; pressing it otherwise starts one. */
  function ConfirmSend(p: Page, config: EmailConfig): (r: Option<(Page, Invitation)>)
    ensures r.None? <==> p.sending
    ensures r.Some? ==> r.value.0.sending && r.value.1.to == p.form.email
  {
    if p.sending then None else Some(BeginCreate(p, config))
  }

  /** Once a create has started, the button refuses a second one until the
      service has answered; whatever it answered, the button works again. */
  lemma OneInvitationInFlight(p: Page, config: EmailConfig, current: Page, result: InviteResult, freshId: int)
    requires !p.sending
    ensures var r := ConfirmSend(p, config);
            && r.Some?
            && ConfirmSend(r.value.0, config).None?
            && ConfirmSend(FinishCreate(current, r.value.0, result, freshId).0, config).Some?
  {
  }

  /** The roster a create writes is the one the handler started from: an
      edit saved while the service was answering is overwritten by an
      accepted invitation. */
  lemma AcceptedCreateUsesStartingRoster(p: Page, config: EmailConfig, edited: seq<Agent>, freshId: int)
    ensures var (started, _) := BeginCreate(p, config);
            FinishCreate(started.(agents := edited), p, Accepted, freshId).0.agents
              == p.agents + [Agent(freshId, p.form.name, p.form.email, p.form.role)]
  {
  }

  /** Opening an agent for edit: the dialog edits a copy. */
  function EditClick(p: Page, a: Agent): (q: Page)
    ensures q.editing == Some(a) && q.editOpen && q.agents == p.agents
  {
    p.(editing := Some(a), editOpen := true)
  }

  /** Update: refused while there is no agent under edit or any of its
      fields is empty; otherwise the agents with its identifier are replaced
      by it, the dialog closes and the edit state clears. */
  function UpdateAgent(p: Page): (r: (Page, Notice))
    ensures p.editing.None? ==> r == (p, FieldsMissing)
    ensures p.editing.Some? && (p.editing.value.name == "" || p.editing.value.email == "" || p.editing.value.role == "") ==>
      r == (p, FieldsMissing)
    ensures r.1 == Done <==>
      p.editing.Some? && p.editing.value.name != "" && p.editing.value.email != "" && p.editing.value.role != ""
    ensures r.1 == Done ==> !r.0.editOpen && r.0.editing.None?
    ensures |r.0.agents| == |p.agents|
  {
    match p.editing
    case None => (p, FieldsMissing)
    case Some(e) =>
      if e.name == "" || e.email == "" || e.role == "" then (p, FieldsMissing)
      else
        (p.(agents := MapWhere(p.agents, (a: Agent) => a.id == e.id, (a: Agent) => e),
            editOpen := false, editing := None),
         Done)
  }

  /** Identifiers of the roster. */
  function Ids(agents: seq<Agent>): set<int> {
    set i | 0 <= i < |agents| :: agents[i].id
  }

  /** An accepted update replaces exactly the agents with the edited
      identifier; the others stay, and the identifiers are unchanged. */
  lemma UpdateReplacesOnlyMatching(p: Page)
    requires p.editing.Some?
    requires UpdateAgent(p).1 == Done
    ensures var q := UpdateAgent(p).0;
            && (forall i :: 0 <= i < |p.agents| && p.agents[i].id == p.editing.value.id ==> q.agents[i] == p.editing.value)
            && (forall i :: 0 <= i < |p.agents| && p.agents[i].id != p.editing.value.id ==> q.agents[i] == p.agents[i])
            && Ids(q.agents) == Ids(p.agents)
  {
    var q := UpdateAgent(p).0;
    var e := p.editing.value;
    forall x | x in Ids(p.agents) ensures x in Ids(q.agents) {
      var i :| 0 <= i < |p.agents| && p.agents[i].id == x;
      assert q.agents[i].id == x;
    }
    forall x | x in Ids(q.agents) ensures x in Ids(p.agents) {
      var i :| 0 <= i < |q.agents| && q.agents[i].id == x;
      assert p.agents[i].id == x;
    }
  }

  /** Updating an agent whose identifier is not on the roster changes no
      agent. */
  lemma UpdateAbsentChangesNoAgent(p: Page)
    requires p.editing.Some? && p.editing.value.id !in Ids(p.agents)
    ensures UpdateAgent(p).0.agents == p.agents
  {
    var q := UpdateAgent(p).0;
    forall i | 0 <= i < |p.agents| ensures q.agents[i] == p.agents[i] {
      assert p.agents[i].id in Ids(p.agents);
    }
  }
}
