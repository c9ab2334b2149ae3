/** Properties of whole conversations: which answers are stored in each
    state, that the services selection stays duplicate-free, and that a
    completed form hands over every answer. */
module FormFlow {
  import opened Wrappers
  import opened Text
  import opened Values
  import opened Conversation

  /** The answers stored in a session match its state: no state means no
      answers; in state `s` exactly the answers of the earlier states are
      stored, plus, while services are being chosen, the selection so far,
      which is a duplicate-free list. */
  predicate Inv(sess: Session) {
    match sess.state
    case None => sess.data == map[]
    case Some(s) =>
      && KeysBefore(s) <= sess.data.Keys
      && (forall k :: k in sess.data ==> k in KeysBefore(s) || (s == AdditionalServices && k == ServicesKey))
      && (s == AdditionalServices && ServicesKey in sess.data ==>
            sess.data[ServicesKey].VList? && NoDuplicates(sess.data[ServicesKey].items))
  }

  /** Moving one state on adds exactly the key of the state left. */
  lemma KeysBeforeNext(s: FormState)
    requires Next(s).Some?
    ensures KeysBefore(Next(s).value) == KeysBefore(s) + {Key(s)}
  {
    var n := Next(s).value;
    assert Position(n) == Position(s) + 1;
    forall k | k in KeysBefore(n) ensures k in KeysBefore(s) + {Key(s)} {
      var i :| 0 <= i < Position(n) && k == Key(Order[i]);
      if i < Position(s) {
        assert k in KeysBefore(s);
      }
    }
    assert Key(s) == Key(Order[Position(s)]);
  }

  /** The key of a state is not among the keys answered before it. */
  lemma KeyNotBefore(s: FormState)
    ensures Key(s) !in KeysBefore(s)
  {
    forall i | 0 <= i < Position(s) ensures Key(Order[i]) != Key(s) {
      KeysDistinct(s, Order[i]);
    }
  }

  /** Every step keeps the invariant. */
  lemma StepKeepsInv(sess: Session, ev: Event, today: string)
    requires Inv(sess)
    ensures Inv(Step(sess, ev, today).session)
  {
    if sess.state.Some? && !ev.KpCommand? {
      if Accepts(sess, sess.state.value, ev) {
        AcceptedKeepsInv(sess, ev, today);
      } else {
        RejectedKeepsInv(sess, ev, today);
      }
    }
  }

  /** A session moved one state on, with exactly the left state's key
      added, satisfies the invariant. */
  lemma AdvancedInv(sess: Session, s: FormState, r: Session)
    requires Inv(sess) && sess.state == Some(s) && Next(s).Some?
    requires r.state == Next(s)
    requires r.data.Keys == sess.data.Keys + {Key(s)}
    ensures Inv(r)
  {
    var n := Next(s).value;
    KeysBeforeNext(s);
    assert KeysBefore(n) <= r.data.Keys;
    if n == AdditionalServices {
      KeyNotBefore(AdditionalServices);
      assert ServicesKey == Key(AdditionalServices);
    }
    if s == AdditionalServices {
      assert ServicesKey == Key(AdditionalServices);
    }
    forall k | k in r.data ensures k in KeysBefore(n) {
    }
  }

  lemma AcceptedKeepsInv(sess: Session, ev: Event, today: string)
    requires Inv(sess) && sess.state.Some? && !ev.KpCommand? && Accepts(sess, sess.state.value, ev)
    ensures Inv(Step(sess, ev, today).session)
  {
    var s := sess.state.value;
    var r := Step(sess, ev, today).session;
    if Next(s).Some? {
      assert r.state == Next(s);
      assert r.data.Keys == sess.data.Keys + {Key(s)} by {
        assert r.data - {Key(s)} == sess.data - {Key(s)};
        assert Key(s) in r.data;
      }
      AdvancedInv(sess, s, r);
    }
  }

  lemma RejectedKeepsInv(sess: Session, ev: Event, today: string)
    requires Inv(sess) && sess.state.Some? && !ev.KpCommand? && !Accepts(sess, sess.state.value, ev)
    ensures Inv(Step(sess, ev, today).session)
  {
    var r := Step(sess, ev, today).session;
    if r.data != sess.data {
      assert sess.state == Some(AdditionalServices);
      var d := ev.data;
      assert r == OnServicesButton(sess, d);
      assert r.data.Keys == sess.data.Keys + {ServicesKey} by {
        assert r.data - {ServicesKey} == sess.data - {ServicesKey};
      }
      AddServiceKeepsDistinct(CurrentServices(sess.data).items, d);
    }
  }

  /** The session after a sequence of events, one date for all. */
  function Run(sess: Session, evs: seq<Event>, today: string): Session
    decreases |evs|
  {
    if |evs| == 0 then sess else Run(Step(sess, evs[0], today).session, evs[1..], today)
  }

  /** Every session reached from the start satisfies the invariant. */
  lemma {:induction false} RunKeepsInv(sess: Session, evs: seq<Event>, today: string)
    requires Inv(sess)
    ensures Inv(Run(sess, evs, today))
    decreases |evs|
  {
    if |evs| > 0 {
      StepKeepsInv(sess, evs[0], today);
      RunKeepsInv(Step(sess, evs[0], today).session, evs[1..], today);
    }
  }

  lemma InitialInv()
    ensures Inv(Initial)
  {
  }

  /** The keys of a completed form: every state's answer and the date. */
  function SubmittedKeys(): set<string> {
    KeysBefore(TotalBudget) + {Key(TotalBudget), DateKey}
  }

  /** A form completed from a consistent session hands over exactly the
      ten answers and the date, the budget among them as a number. */
  lemma SubmissionComplete(sess: Session, ev: Event, today: string)
    requires Inv(sess)
    requires Step(sess, ev, today).submitted.Some?
    ensures Step(sess, ev, today).submitted.value.Keys == SubmittedKeys()
    ensures Step(sess, ev, today).submitted.value[DateKey] == VStr(today)
    ensures Step(sess, ev, today).submitted.value[Key(TotalBudget)].VInt?
    ensures Step(sess, ev, today).submitted.value[Key(TotalBudget)].i > 0
    ensures Step(sess, ev, today).session == Initial
  {
    KeysDistinct(TotalBudget, TotalBudget);
    KeyNotBefore(TotalBudget);
    assert DateKey != Key(TotalBudget);
  }

  // ---------------------------------------------------------------------------
  // /kp without clearing the stored answers
  // ---------------------------------------------------------------------------

  /** `/kp` as written: the state is reset but the stored answers are
      kept. */
  function StartKpAsWritten(sess: Session): (r: Session)
    ensures r.state == Some(TemplateType) && r.data == sess.data
  {
    Session(Some(TemplateType), sess.data)
  }

  function StepAsWritten(sess: Session, ev: Event, today: string): (r: Outcome)
    ensures !ev.KpCommand? ==> r == Step(sess, ev, today)
    ensures ev.KpCommand? ==> r.session.data == sess.data
  {
    if ev.KpCommand? then Outcome(StartKpAsWritten(sess), None) else Step(sess, ev, today)
  }

  /** As written, `/kp` after a form abandoned at the budget question
      starts the new form with all the old answers stored, which no fresh
      form has; with the answers cleared the invariant is kept. */
  lemma StaleAnswersBreakInv(sess: Session)
    requires Inv(sess) && sess.state == Some(TotalBudget)
    ensures !Inv(StepAsWritten(sess, KpCommand, "").session)
    ensures Inv(Step(sess, KpCommand, "").session)
  {
    assert Key(Order[0]) in KeysBefore(TotalBudget);
  }

  /** Until the services question is reached, no step touches the stored
      services value, so a stale one survives to it. */
  lemma EarlyStepsKeepServices(sess: Session, ev: Event, today: string)
    requires sess.state.Some? && Position(sess.state.value) < Position(AdditionalServices)
    requires !ev.KpCommand? && ServicesKey in sess.data
    ensures ServicesKey in Step(sess, ev, today).session.data
    ensures Step(sess, ev, today).session.data[ServicesKey] == sess.data[ServicesKey]
  {
    var s := sess.state.value;
    KeysDistinct(s, AdditionalServices);
    var r := Step(sess, ev, today).session;
    assert ServicesKey in sess.data - {Key(s)};
  }

  /** The stale text is then closed character by character: pressing the
      skip button stores the letters of the old text joined by `, `. */
  lemma StaleServicesJoinedByCharacter(data: Data)
    requires ServicesKey in data && data[ServicesKey] == VStr("1С")
    ensures Step(Session(Some(AdditionalServices), data), Button(SkipButton), "").session.data[ServicesKey]
         == VStr("1, С")
  {
    var s := "1С";
    assert seq(|s|, i requires 0 <= i < |s| => [s[i]]) == ["1", "С"];
    assert Join(["1", "С"], ", ") == "1" + ", " + "С";
  }

  /** With `/kp` clearing the answers, the services step always starts from
      an empty selection, so closing it stores either `Не требуются` or the
      chosen services joined with `, `. */
  lemma ServicesClosedFromList(sess: Session, today: string)
    requires Inv(sess) && sess.state == Some(AdditionalServices)
    ensures var r := Step(sess, Button(SkipButton), today).session;
      && r.state == Some(TotalBudget)
      && r.data[ServicesKey] ==
           VStr(if ServicesKey !in sess.data || sess.data[ServicesKey].items == [] then NoAddOns
                else Join(sess.data[ServicesKey].items, ", "))
  {
  }
}
