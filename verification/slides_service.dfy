/** `create_kp_presentation`: copy the chosen template, fill it with the ten
    form answers through one batch of replace-all requests, and hand back
    the edit link. The two service calls are parameters and are recorded,
    so what the function asks of the service is part of its result. */
module SlidesService {
  import opened Wrappers
  import opened Text
  import opened Values
  import opened Conversation
  import opened SlidesRequests
  import opened FormFlow

  /** The ids of the two template presentations, from the configuration. */
  datatype TemplateIds = TemplateIds(long: string, short: string)

  /** The long template for exactly the value `'long'`, the short one for
      anything else. */
  function TemplateId(templateType: Value, ids: TemplateIds): (r: string)
    ensures templateType == VStr("long") ==> r == ids.long
    ensures templateType != VStr("long") ==> r == ids.short
  {
    if templateType == VStr("long") then ids.long else ids.short
  }

  /** The ten placeholder names, each with the form field it is filled
      from, in the order the map is written. */
  const Placeholders: seq<(string, string)> := [
    ("COMPANY_NAME", "company_name"),
    ("CONTACT_PERSON", "contact_person"),
    ("PHONE", "phone"),
    ("EMAIL", "email"),
    ("EMPLOYEES_COUNT", "employees_count"),
    ("SERVICE_TYPE", "service_type"),
    ("IMPLEMENTATION_PERIOD", "implementation_period"),
    ("ADDITIONAL_SERVICES", "additional_services"),
    ("TOTAL_BUDGET", "total_budget"),
    ("CURRENT_DATE", "current_date")
  ]

  /** `kp_data.get(field, '')`. */
  function FieldOr(data: Data, field: string): (r: Value)
    ensures field in data ==> r == data[field]
    ensures field !in data ==> Str(r) == ""
  {
    if field in data then data[field] else VStr("")
  }

  /** The replacement map: always the ten placeholders in the same order,
      each with its field's answer or the empty text when it is missing. */
  function ReplacementMap(data: Data): (r: Replacements)
    ensures |r| == |Placeholders|
    ensures forall i :: 0 <= i < |r| ==> r[i].0 == Placeholders[i].0
    ensures forall i :: 0 <= i < |r| ==> r[i].1 == FieldOr(data, Placeholders[i].1)
  {
    seq(|Placeholders|, i requires 0 <= i < |Placeholders| => (Placeholders[i].0, FieldOr(data, Placeholders[i].1)))
  }

  /** The placeholder names are distinct, non-empty and brace-free, so each
      names exactly one `{{KEY}}` / `{KEY}` pair. */
  lemma PlaceholdersWellFormed()
    ensures forall i :: 0 <= i < |Placeholders| ==> GoodKey(Placeholders[i].0)
    ensures forall i, j :: 0 <= i < j < |Placeholders| ==> Placeholders[i].0 != Placeholders[j].0
  {
  }

  /** The fields read are the answers of the form states after the
      template choice, in form order, then the date. */
  lemma PlaceholderFields()
    ensures forall i :: 0 <= i < 9 ==> Placeholders[i].1 == Key(Order[i + 1])
    ensures Placeholders[9].1 == DateKey
  {
  }

  /** `f"КП для {company} - {contact}"`; a missing field is a `KeyError`. */
  function Title(data: Data): (r: Option<string>)
    ensures r.Some? <==> "company_name" in data && "contact_person" in data
    ensures r.Some? ==> r.value == TitleLead + Str(data["company_name"]) + TitleSeparator + Str(data["contact_person"])
  {
    if "company_name" in data && "contact_person" in data then
      Some(TitleLead + Str(data["company_name"]) + TitleSeparator + Str(data["contact_person"]))
    else None
  }

  const TitleLead: string := "КП для "
  const TitleSeparator: string := " - "

  /** The company and the contact can be read back out of a title. */
  lemma TitleParts(data: Data)
    requires Title(data).Some?
    ensures var t := Title(data).value;
      var company := Str(data["company_name"]);
      var contact := Str(data["contact_person"]);
      && t[..|TitleLead|] == TitleLead
      && t[|TitleLead|..|TitleLead| + |company|] == company
      && t[|t| - |contact|..] == contact
  {
    var t := Title(data).value;
    var company := Str(data["company_name"]);
    var contact := Str(data["contact_person"]);
    assert t == (TitleLead + company) + (TitleSeparator + contact);
    assert t[..|TitleLead| + |company|] == TitleLead + company;
  }

  const EditPrefix: string := "https://docs.google.com/presentation/d/"
  const EditSuffix: string := "/edit"

  /** The edit link of a presentation. */
  function EditUrl(presentationId: string): (r: string)
    ensures |r| == |EditPrefix| + |presentationId| + |EditSuffix|
    ensures r[..|EditPrefix|] == EditPrefix
    ensures r[|r| - |EditSuffix|..] == EditSuffix
  {
    EditPrefix + presentationId + EditSuffix
  }

  /** The link determines the presentation it points to. */
  lemma EditUrlId(presentationId: string)
    ensures EditUrl(presentationId)[|EditPrefix|..|EditPrefix| + |presentationId|] == presentationId
    ensures EditUrl(presentationId)[..|EditPrefix|] == EditPrefix
    ensures EditUrl(presentationId)[|EditPrefix| + |presentationId|..] == EditSuffix
  {
  }

  lemma EditUrlInjective(a: string, b: string)
    requires EditUrl(a) == EditUrl(b)
    ensures a == b
  {
    EditUrlId(a);
    EditUrlId(b);
  }

  /** A call made to the slides service. */
  datatype ApiCall =
    | CopyFile(templateId: string, title: string)
    | BatchUpdate(presentationId: string, requests: seq<Request>)

  /** What the function hands back: the edit link, nothing (`None`), or the
      `KeyError` of a missing title field. */
  datatype KpResult = KeyMissing | NoPresentation | Link(url: string)

  datatype KpOutcome = KpOutcome(calls: seq<ApiCall>, result: KpResult)

  /** `not presentation_id`: no id, or the empty one. */
  predicate CopyFailed(id: Option<string>) {
    id.None? || id.value == ""
  }

  /** The whole of `create_kp_presentation`. `copy` stands for the Drive
      copy (a failed copy gives `None`); `update` stands for the batch
      update, whose answer is not looked at. */
  function CreateKpPresentation(templateType: Value, kpData: Data, ids: TemplateIds,
                                copy: (string, string) -> Option<string>,
                                update: (string, seq<Request>) -> bool): (r: KpOutcome)
    ensures r.result.KeyMissing? <==> Title(kpData).None?
    ensures r.result.KeyMissing? ==> r.calls == []
    ensures Title(kpData).Some? ==>
      && |r.calls| >= 1
      && r.calls[0] == CopyFile(TemplateId(templateType, ids), Title(kpData).value)
    ensures Title(kpData).Some? ==>
      (r.result.NoPresentation? <==> CopyFailed(copy(TemplateId(templateType, ids), Title(kpData).value)))
    ensures r.result.NoPresentation? ==> |r.calls| == 1
    ensures r.result.Link? ==>
      var id := copy(TemplateId(templateType, ids), Title(kpData).value).value;
      && r.calls == [CopyFile(TemplateId(templateType, ids), Title(kpData).value),
                     BatchUpdate(id, BuildRequests(ReplacementMap(kpData)))]
      && r.result.url == EditUrl(id)
  {
    match Title(kpData)
    case None => KpOutcome([], KeyMissing)
    case Some(title) =>
      var templateId := TemplateId(templateType, ids);
      var id := copy(templateId, title);
      if CopyFailed(id) then KpOutcome([CopyFile(templateId, title)], NoPresentation)
      else
        var requests := BuildRequests(ReplacementMap(kpData));
        var _ := update(id.value, requests);
        KpOutcome([CopyFile(templateId, title), BatchUpdate(id.value, requests)], Link(EditUrl(id.value)))
  }

  /** The link is handed back whatever the batch update answered. */
  lemma LinkIgnoresUpdate(templateType: Value, kpData: Data, ids: TemplateIds,
                          copy: (string, string) -> Option<string>,
                          u1: (string, seq<Request>) -> bool, u2: (string, seq<Request>) -> bool)
    ensures CreateKpPresentation(templateType, kpData, ids, copy, u1)
         == CreateKpPresentation(templateType, kpData, ids, copy, u2)
  {
  }

  /** Answers holding exactly the submitted keys carry every field the
      replacement map reads, and the title can be built from them. */
  lemma SubmittedFieldsPresent(data: Data)
    requires data.Keys == SubmittedKeys()
    ensures forall i :: 0 <= i < |Placeholders| ==> Placeholders[i].1 in data
    ensures Title(data).Some?
  {
    PlaceholderFields();
    assert Position(TotalBudget) == 9;
    forall i | 0 <= i < 8 ensures Placeholders[i].1 in data {
      assert Key(Order[i + 1]) in KeysBefore(TotalBudget);
    }
    assert Placeholders[8].1 == Key(TotalBudget);
    assert Placeholders[0].1 == "company_name" && Placeholders[1].1 == "contact_person";
  }

  /** The answers a completed form submits leave no placeholder on its
      empty default, and the title can be built. */
  lemma SubmissionFillsEveryPlaceholder(sess: Session, ev: Event, today: string)
    requires Inv(sess)
    requires Step(sess, ev, today).submitted.Some?
    ensures var data := Step(sess, ev, today).submitted.value;
      && (forall i :: 0 <= i < |Placeholders| ==> Placeholders[i].1 in data)
      && Title(data).Some?
  {
    SubmissionComplete(sess, ev, today);
    SubmittedFieldsPresent(Step(sess, ev, today).submitted.value);
  }

  /** Applied to a slide text built from literal runs and placeholders, the
      request list puts each field's answer (or the empty text) in place of
      both forms of its placeholder, provided no answer contains a brace. */
  lemma KpRequestsResolve(ps: seq<Piece>, data: Data)
    requires forall i :: 0 <= i < |ps| ==> GoodPiece(ps[i])
    requires forall i :: 0 <= i < |Placeholders| ==> NoBraces(Str(FieldOr(data, Placeholders[i].1)))
    ensures ApplyRequests(Render(ps), BuildRequests(ReplacementMap(data)))
         == Render(seq(|ps|, i requires 0 <= i < |ps| => Resolve(ps[i], ReplacementMap(data))))
  {
    PlaceholdersWellFormed();
    RequestsResolvePlaceholders(ps, ReplacementMap(data));
  }

  /** Each placeholder is looked up to its own field's answer. */
  lemma LookupPlaceholder(data: Data, i: nat)
    requires i < |Placeholders|
    ensures Lookup(ReplacementMap(data), Placeholders[i].0) == Some(Str(FieldOr(data, Placeholders[i].1)))
  {
    PlaceholdersWellFormed();
    LookupDistinct(ReplacementMap(data), i);
  }

  /** Both forms of a placeholder resolve to its field's answer, and to
      the empty text when the field is missing. */
  lemma PlaceholderResolvesToField(data: Data, i: nat)
    requires i < |Placeholders|
    ensures Resolve(Double(Placeholders[i].0), ReplacementMap(data)) == Lit(Str(FieldOr(data, Placeholders[i].1)))
    ensures Resolve(Single(Placeholders[i].0), ReplacementMap(data)) == Lit(Str(FieldOr(data, Placeholders[i].1)))
    ensures Placeholders[i].1 !in data ==> Resolve(Double(Placeholders[i].0), ReplacementMap(data)) == Lit("")
  {
    LookupPlaceholder(data, i);
  }

  lemma TitleExample()
    ensures Title(map["company_name" := VStr("Ромашка"), "contact_person" := VStr("Иван")])
         == Some("КП для Ромашка - Иван")
    ensures EditUrl("abc") == "https://docs.google.com/presentation/d/abc/edit"
  {
    var data := map["company_name" := VStr("Ромашка"), "contact_person" := VStr("Иван")];
    assert "company_name" in data && "contact_person" in data;
    assert Str(data["company_name"]) == "Ромашка";
    assert Str(data["contact_person"]) == "Иван";
    assert Title(data) == Some("КП для " + "Ромашка" + " - " + "Иван");
    assert "КП для " + "Ромашка" + " - " + "Иван" == "КП для Ромашка - Иван";
  }
}
