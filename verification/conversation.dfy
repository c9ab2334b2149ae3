/** The form conversation: ten questions asked in a fixed order, each
    answer checked and stored under its own key, and the collected answers
    handed over for the slide deck once the budget is accepted. */
module Conversation {
  import opened Wrappers
  import opened Text
  import opened FormInput
  import opened Values

  /** The form states, in the order they are declared. */
  datatype FormState =
    | TemplateType | CompanyName | ContactPerson | Phone | Email
    | EmployeesCount | ServiceType | ImplementationPeriod | AdditionalServices | TotalBudget

  const Order: seq<FormState> := [
    TemplateType, CompanyName, ContactPerson, Phone, Email,
    EmployeesCount, ServiceType, ImplementationPeriod, AdditionalServices, TotalBudget]

  /** The place of a state in the order. */
  function Position(s: FormState): (i: nat)
    ensures i < |Order| && Order[i] == s
  {
    match s
    case TemplateType => 0
    case CompanyName => 1
    case ContactPerson => 2
    case Phone => 3
    case Email => 4
    case EmployeesCount => 5
    case ServiceType => 6
    case ImplementationPeriod => 7
    case AdditionalServices => 8
    case TotalBudget => 9
  }

  /** The state that follows `s`; the budget question is the last. */
  function Next(s: FormState): (r: Option<FormState>)
    ensures r.Some? <==> Position(s) + 1 < |Order|
    ensures r.Some? ==> r.value == Order[Position(s) + 1]
  {
    match s
    case TemplateType => Some(CompanyName)
    case CompanyName => Some(ContactPerson)
    case ContactPerson => Some(Phone)
    case Phone => Some(Email)
    case Email => Some(EmployeesCount)
    case EmployeesCount => Some(ServiceType)
    case ServiceType => Some(ImplementationPeriod)
    case ImplementationPeriod => Some(AdditionalServices)
    case AdditionalServices => Some(TotalBudget)
    case TotalBudget => None
  }

  /** The order lists every state exactly once. */
  lemma OrderIsAPermutation()
    ensures forall i, j :: 0 <= i < j < |Order| ==> Order[i] != Order[j]
    ensures forall s: FormState :: Order[Position(s)] == s
  {
  }

  /** The key under which the answer of each state is stored. */
  function Key(s: FormState): string {
    match s
    case TemplateType => "template_type"
    case CompanyName => "company_name"
    case ContactPerson => "contact_person"
    case Phone => "phone"
    case Email => "email"
    case EmployeesCount => "employees_count"
    case ServiceType => "service_type"
    case ImplementationPeriod => "implementation_period"
    case AdditionalServices => "additional_services"
    case TotalBudget => "total_budget"
  }

  const ServicesKey: string := "additional_services"
  const DateKey: string := "current_date"

  /** Distinct states store under distinct keys, none of them the date key. */
  lemma KeysDistinct(s: FormState, t: FormState)
    ensures Key(s) == Key(t) <==> s == t
    ensures Key(s) != DateKey
  {
  }

  /** The keys answered before state `s` is reached. */
  function KeysBefore(s: FormState): set<string> {
    set i | 0 <= i < Position(s) :: Key(Order[i])
  }

  // ---------------------------------------------------------------------------
  // Sessions and events
  // ---------------------------------------------------------------------------

  type Data = map<string, Value>

  /** The conversation's state and stored answers. */
  datatype Session = Session(state: Option<FormState>, data: Data)

  const Initial: Session := Session(None, map[])

  /** What reaches the form: the two commands, a typed message, or a button
      press with its callback data. */
  datatype Event = StartCommand | KpCommand | Message(text: string) | Button(data: string)

  /** The session after an event, and the answers handed to the slides
      service when the form is complete. */
  datatype Outcome = Outcome(session: Session, submitted: Option<Data>)

  /** The states answered by a button press; the others take typed text. */
  predicate ButtonState(s: FormState) {
    s == TemplateType || s == ServiceType || s == ImplementationPeriod || s == AdditionalServices
  }

  // ---------------------------------------------------------------------------
  // Additional services
  // ---------------------------------------------------------------------------

  const AddOnLabels: map<string, string> := map[
    "add_training" := "Обучение сотрудников",
    "add_support" := "Техническая поддержка",
    "add_1c" := "Интеграция с 1С"]

  const SkipButton: string := "add_skip"
  const NoAddOns: string := "Не требуются"

  /** The text stored when the services step is closed: `Не требуются` for
      an empty selection, otherwise the items joined with `, `. A text value
      is joined character by character, as `str.join` does; a non-zero
      number cannot be joined and the handler fails. */
  function ClosingText(current: Value): Option<string> {
    match current
    case VList(items) => Some(if |items| == 0 then NoAddOns else Join(items, ", "))
    case VStr(s) =>
      Some(if |s| == 0 then NoAddOns else Join(seq(|s|, i requires 0 <= i < |s| => [s[i]]), ", "))
    case VInt(i) => if i == 0 then Some(NoAddOns) else None
  }

  /** The selection after a service button: a known service not yet chosen
      is appended. `None` means the stored value stays as it is: an unknown
      button, a service already chosen, or a stored value that is not a
      list (on which the source's append fails). */
  function AddService(current: Value, data: string): (r: Option<seq<string>>)
    ensures r.Some? ==> current.VList? && data in AddOnLabels && AddOnLabels[data] !in current.items
    ensures r.Some? ==> r.value == current.items + [AddOnLabels[data]]
    ensures current.VList? && data in AddOnLabels && AddOnLabels[data] !in current.items ==> r.Some?
  {
    if data in AddOnLabels && current.VList? && AddOnLabels[data] !in current.items
    then Some(current.items + [AddOnLabels[data]])
    else None
  }

  /** Appending only absent services keeps the selection duplicate-free and
      in first-selection order. */
  lemma AddServiceKeepsDistinct(items: seq<string>, data: string)
    requires NoDuplicates(items)
    ensures AddService(VList(items), data).Some? ==>
      && NoDuplicates(AddService(VList(items), data).value)
      && items <= AddService(VList(items), data).value
  {
  }

  // ---------------------------------------------------------------------------
  // One step
  // ---------------------------------------------------------------------------

  /** Store `v` under the key of state `s` and move to the next state. */
  function Advance(sess: Session, s: FormState, v: Value): Session {
    Session(Next(s), sess.data[Key(s) := v])
  }

  /** `/kp`: the template question is asked with no answers stored. */
  function StartKp(sess: Session): (r: Session)
    ensures r.state == Some(TemplateType) && r.data == map[]
  {
    Session(Some(TemplateType), map[])
  }

  /** Whether the message handler of state `s` accepts `text` and moves
      on. */
  predicate MessageAccepted(s: FormState, text: string) {
    match s
    case CompanyName => true
    case ContactPerson => true
    case Phone => AcceptPhone(text).Some?
    case Email => AcceptEmail(text).Some?
    case EmployeesCount => AcceptEmployees(text).Some?
    case TotalBudget => AcceptBudget(text).Some?
    case _ => false
  }

  /** The services value the services handler starts from. */
  function CurrentServices(data: Data): Value {
    if ServicesKey in data then data[ServicesKey] else VList([])
  }

  /** Whether the button handler of state `s` accepts `data` and moves on. */
  predicate ButtonAccepted(sess: Session, s: FormState, data: string) {
    match s
    case TemplateType => '_' in data
    case ServiceType => true
    case ImplementationPeriod => true
    case AdditionalServices => data == SkipButton && ClosingText(CurrentServices(sess.data)).Some?
    case _ => false
  }

  /** Whether the handler of state `s` accepts the event and moves on. */
  predicate Accepts(sess: Session, s: FormState, ev: Event) {
    match ev
    case Message(text) => MessageAccepted(s, text)
    case Button(data) => ButtonAccepted(sess, s, data)
    case _ => false
  }

  /** A validated answer in a state that has a successor: an answer is
      stored under the state's key and the next state is entered; no answer
      changes nothing. */
  function Answered(sess: Session, s: FormState, answer: Option<Value>): (r: Outcome)
    requires sess.state == Some(s) && Next(s).Some?
    ensures r.session.state == Next(s) <==> answer.Some?
    ensures answer.None? ==> r == Outcome(sess, None)
    ensures r.session.data - {Key(s)} == sess.data - {Key(s)}
    ensures answer.Some? ==> Key(s) in r.session.data && r.session.data[Key(s)] == answer.value
    ensures r.submitted.None?
  {
    StepNoLoop(s);
    match answer
    case Some(v) => Outcome(Advance(sess, s, v), None)
    case None => Outcome(sess, None)
  }

  /** The budget answer: a valid one hands over all answers plus the date
      and clears the session; an invalid one changes nothing. */
  function Submitted(sess: Session, text: string, today: string): (r: Outcome)
    requires sess.state == Some(TotalBudget)
    ensures r.session.state.Some? <==> AcceptBudget(text).None?
    ensures AcceptBudget(text).None? ==> r == Outcome(sess, None)
    ensures r.submitted.Some? <==> AcceptBudget(text).Some?
    ensures r.submitted.Some? ==>
      && r.session == Session(None, map[])
      && r.submitted.value == sess.data[Key(TotalBudget) := VInt(AcceptBudget(text).value)][DateKey := VStr(today)]
  {
    match AcceptBudget(text)
    case Some(b) =>
      var answers := sess.data[Key(TotalBudget) := VInt(b)];
      Outcome(Session(None, map[]), Some(answers[DateKey := VStr(today)]))
    case None => Outcome(sess, None)
  }

  /** The text answer a state's validator makes of a message, if any. */
  function TextAnswer(s: FormState, text: string): (r: Option<Value>)
    requires s != TotalBudget
    ensures r.Some? <==> MessageAccepted(s, text)
  {
    match s
    case CompanyName => Some(VStr(text))
    case ContactPerson => Some(VStr(text))
    case Phone => (match AcceptPhone(text) case Some(p) => Some(VStr(p)) case None => None)
    case Email => (match AcceptEmail(text) case Some(e) => Some(VStr(e)) case None => None)
    case EmployeesCount => (match AcceptEmployees(text) case Some(n) => Some(VInt(n)) case None => None)
    case _ => None
  }

  /** A typed message in state `s`: an accepted answer is stored under the
      state's key and the next state is entered (the budget answer instead
      hands over all answers plus the date and clears the session); a
      rejected one changes nothing. */
  function OnMessage(sess: Session, s: FormState, text: string, today: string): (r: Outcome)
    requires sess.state == Some(s)
    ensures r.session.state == Next(s) <==> MessageAccepted(s, text)
    ensures !MessageAccepted(s, text) ==> r == Outcome(sess, None)
    ensures r.session.state.Some? ==> r.session.data - {Key(s)} == sess.data - {Key(s)}
    ensures MessageAccepted(s, text) && r.session.state.Some? ==> Key(s) in r.session.data
    ensures r.submitted.Some? <==> s == TotalBudget && AcceptBudget(text).Some?
  {
    if s == TotalBudget then Submitted(sess, text, today)
    else Answered(sess, s, TextAnswer(s, text))
  }

  /** A button press on the services question: the skip button closes the
      selection, a service button adds to it. */
  function OnServicesButton(sess: Session, data: string): (r: Session)
    requires sess.state == Some(AdditionalServices)
    ensures r.state == Some(TotalBudget) <==> ButtonAccepted(sess, AdditionalServices, data)
    ensures !ButtonAccepted(sess, AdditionalServices, data) ==> r.state == sess.state
    ensures r.data - {ServicesKey} == sess.data - {ServicesKey}
    ensures ButtonAccepted(sess, AdditionalServices, data) ==> ServicesKey in r.data
    ensures !ButtonAccepted(sess, AdditionalServices, data) && r.data != sess.data ==>
      && AddService(CurrentServices(sess.data), data).Some?
      && ServicesKey in r.data
      && r.data[ServicesKey] == VList(AddService(CurrentServices(sess.data), data).value)
  {
    var current := CurrentServices(sess.data);
    if data == SkipButton then
      (match ClosingText(current)
       case Some(t) => Advance(sess, AdditionalServices, VStr(t))
       case None => sess)
    else
      (match AddService(current, data)
       case Some(items) => Session(sess.state, sess.data[ServicesKey := VList(items)])
       case None => sess)
  }

  /** A button press in state `s`. */
  function OnButton(sess: Session, s: FormState, data: string): (r: Session)
    requires sess.state == Some(s)
    ensures r.state == Next(s) <==> ButtonAccepted(sess, s, data)
    ensures !ButtonAccepted(sess, s, data) ==>
      && r.state == sess.state
      && (r.data != sess.data ==> s == AdditionalServices)
    ensures r.data - {Key(s)} == sess.data - {Key(s)}
    ensures ButtonAccepted(sess, s, data) ==> Key(s) in r.data
  {
    StepNoLoop(s);
    match s
    case TemplateType =>
      (match TemplateChoice(data)
       case Some(t) => Advance(sess, s, VStr(t))
       case None => sess)
    case ServiceType => Advance(sess, s, VStr(ServiceLabel(data)))
    case ImplementationPeriod => Advance(sess, s, VStr(PeriodLabel(data)))
    case AdditionalServices => OnServicesButton(sess, data)
    case _ => sess
  }

  /** The conversation's reaction to one event. `today` is the date the
      handler reads from the clock. The commands are handled in every
      state; a message or button with no handler in the current state is
      ignored; a rejected answer leaves the session as it was, except that
      a service button may add to the selection; an accepted answer moves
      exactly one step along the order and touches only its own key. */
  function Step(sess: Session, ev: Event, today: string): (r: Outcome)
    ensures ev.KpCommand? ==> r == Outcome(Session(Some(TemplateType), map[]), None)
    ensures ev.StartCommand? || sess.state.None? ==> r == Outcome(sess, None) || ev.KpCommand?
    ensures sess.state.Some? && !ev.KpCommand? ==>
      (r.session.state == Next(sess.state.value) <==> Accepts(sess, sess.state.value, ev))
    ensures sess.state.Some? && !ev.KpCommand? && !Accepts(sess, sess.state.value, ev) ==>
      && r.session.state == sess.state
      && (r.session.data != sess.data ==> sess.state == Some(AdditionalServices))
    ensures sess.state.Some? && !ev.KpCommand? && r.session.state.Some? ==>
      r.session.data - {Key(sess.state.value)} == sess.data - {Key(sess.state.value)}
    ensures sess.state.Some? && !ev.KpCommand? && Accepts(sess, sess.state.value, ev) && r.session.state.Some? ==>
      Key(sess.state.value) in r.session.data
    ensures r.submitted.Some? <==>
      sess.state == Some(TotalBudget) && ev.Message? && AcceptBudget(ev.text).Some?
  {
    match ev
    case StartCommand => Outcome(sess, None)
    case KpCommand => Outcome(StartKp(sess), None)
    case Message(text) =>
      (match sess.state
       case None => Outcome(sess, None)
       case Some(s) => OnMessage(sess, s, text, today))
    case Button(data) =>
      (match sess.state
       case None => Outcome(sess, None)
       case Some(s) => Outcome(OnButton(sess, s, data), None))
  }

  /** No state is its own successor. */
  lemma StepNoLoop(s: FormState)
    ensures Next(s) != Some(s)
  {
  }
}
