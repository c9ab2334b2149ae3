# kp-bot: a verified model of the proposal builder

kp-bot is a Telegram bot for preparing commercial proposals ("КП"). A
manager answers a fixed questionnaire. The bot validates each answer and
keeps the answers in the conversation state. When the form is complete, it
builds the proposal one of two ways:

- it fills a PowerPoint template locally: fonts, company name, pricing table
  and price caption;
- or it copies a Google Slides template and sends placeholder replacement
  requests.

This project models the logic under the chat and API glue as immutable
Dafny datatypes and pure functions, and proves properties of them.

| file | module | models |
|---|---|---|
| wrappers.dfy | Wrappers | `Option` |
| text.dfy | Text | string helpers: `in`, `strip`, `lower`, `join`, `split`, `replace`, `int()`, `str()` |
| values.dfy | Values | the values the form stores (text, number, list) and Python's `str()` of them |
| deck.dfy | Deck | the deck: slides, shapes, paragraphs, runs, tables, cells, fonts; the restyle of one run |
| fonts.dfy | Fonts | `_set_shape_font`, `_set_table_font`, `_ensure_consistent_fonts` |
| substitution.dfy | Substitution | `_safe_text_replace`, `_replace_company_name`, `_safe_cell_replace` |
| money.dfy | Money | the money format `f"{n:,} ₽".replace(',', ' ')` |
| pricing.dfy | Pricing | `_fill_calculation_table`: prices, grand total, row classification, cell writes |
| third_table.dfy | ThirdTable | `_update_third_table`: the third table in slide-then-shape order |
| price_pattern.dfy | PricePattern | `re.sub(r'\d[\d\s]*₽', …)` over one run's text |
| price_text.dfy | PriceText | `_update_price_text` |
| filler.dfy | Filler | the pass order of `create_kp_presentation` in the PowerPoint service |
| form_input.dfy | FormInput | the validators and callback maps of the handlers |
| conversation.dfy | Conversation | the state order of `FormKP` and each handler as one step of a state machine |
| form_flow.dfy | FormFlow | invariants of the conversation, and the `/kp` finding |
| slides_requests.dfy | SlidesRequests | the request list of `replace_text_in_slide` and the replace-all semantics of the requests |
| slides_service.dfy | SlidesService | `create_kp_presentation` in the Google Slides service |

The deck model:

- A `Presentation` holds `Slide`s, and a slide holds `Shape`s.
- A shape is a text frame of `Paragraph`s, a `Table` of `Row`s of `Cell`s, or
  some other shape.
- A paragraph holds `Run`s, and each run is a text plus a `Font` record.
  A font's colour is an RGB value or none, when the run inherits its colour.

Each exception handler that prints the error and carries on becomes a total
function. Such a function returns 0 or leaves its input as it was.

Two outside services become parameters:

- The template loader of the PowerPoint service.
- The Drive copy and Slides `batchUpdate` calls of the Google service.
  - `copy` returns an id or nothing.
  - `update` returns whether the call succeeded.

The clock is a parameter too: the date the budget handler reads is `today`.

## Model

| member | source | states |
|---|---|---|
| Deck.Restyle | bot/ppt_service.py:32-49 | a restyled run font is named Montserrat and keeps size, bold, italic, underline and colour; as corrected (see Findings), a run without an RGB colour is restyled too |
| Deck.RestyleIdempotent | bot/ppt_service.py:32-49 | restyling a restyled font changes nothing, and whether underline is restored makes no difference |
| Fonts.RestyleRuns | bot/ppt_service.py:31-49 | every run keeps its text and is restyled from its own font, as corrected (see Findings) |
| Fonts.RestyleParagraphs | bot/ppt_service.py:29-49 | the paragraph and run structure is kept; each run is restyled in place, as corrected (see Findings) |
| Fonts.SetShapeFont | bot/ppt_service.py:24-49 | a text shape has every run restyled with its text kept; any other shape is returned unchanged; as corrected (see Findings) |
| Fonts.SetTableFont | bot/ppt_service.py:51-74 | every cell of every row is restyled; rows, cells and texts are kept; as corrected (see Findings) |
| Fonts.EnsureConsistentFonts | bot/ppt_service.py:18-22 | slides and shapes keep their number and position, and each shape is the font pass of the original; as corrected (see Findings) |
| Fonts.RestyledKeepsText | bot/ppt_service.py:24-49 | the font pass does not change the text a shape shows |
| Fonts.RestyleParagraphsIdempotent | bot/ppt_service.py:29-49 | restyling paragraphs twice equals restyling them once |
| Fonts.EnsureConsistentFontsIdempotent | bot/ppt_service.py:18-22 | the deck font pass is idempotent |
| Fonts.SetTableFontIdempotent | bot/ppt_service.py:51-74 | the table font pass is idempotent |
| Fonts.FirstWithoutRgb | bot/ppt_service.py:31-36 | the position of the first run whose colour is not an RGB value, every earlier one having one; it is inside the runs iff some run lacks one |
| Fonts.RestyleRunsAsWritten | bot/ppt_service.py:31-49 | as written, the runs before the first one without an RGB colour are restyled, that run and the rest are kept, and the loop raises iff such a run exists |
| Fonts.RestyleRunsAsWrittenAgrees | bot/ppt_service.py:31-49 | when every run has an RGB colour, the loop as written is the corrected restyle and does not raise |
| Fonts.RestyleParagraphsAsWritten | bot/ppt_service.py:29-49 | as written, the paragraph loop keeps its length and raises iff some run has no RGB colour |
| Fonts.RestyleParagraphsAsWrittenAt | bot/ppt_service.py:29-49 | paragraphs before the first failing one are restyled, the failing one is restyled up to its failing run, later ones are kept |
| Fonts.RestyleParagraphsAsWrittenAgrees | bot/ppt_service.py:29-49 | when every run has an RGB colour, the loop as written is the corrected restyle |
| Fonts.RestyleCellsAsWritten | bot/ppt_service.py:54-74 | as written, the cell loop of a row keeps its length and raises iff some run of the row has no RGB colour |
| Fonts.RestyleCellsAsWrittenAt | bot/ppt_service.py:54-74 | cells before the first failing one are restyled, the failing one up to its failing run, later ones are kept |
| Fonts.RestyleCellsAsWrittenAgrees | bot/ppt_service.py:54-74 | when every run of the row has an RGB colour, the loop as written is the corrected row restyle |
| Fonts.RestyleRowsAsWritten | bot/ppt_service.py:53-74 | as written, the row loop keeps its length and raises iff some run of the rows has no RGB colour |
| Fonts.RestyleRowsAsWrittenAt | bot/ppt_service.py:53-74 | rows before the first failing one are restyled, the failing one up to its failing cell, later ones are kept |
| Fonts.SetTableFontAsWritten | bot/ppt_service.py:51-74 | `_set_table_font` as written keeps the row count and raises iff some run of the table has no RGB colour |
| Fonts.SetTableFontAsWrittenAt | bot/ppt_service.py:51-74 | row by row, the table as written is restyled before the failing row, partly restyled at it, and kept after it |
| Fonts.SetTableFontAsWrittenAgrees | bot/ppt_service.py:51-74 | when every run of the table has an RGB colour, the pass as written is the corrected pass and does not raise |
| Fonts.SetTableFontKeepsRgb | bot/ppt_service.py:51-74 | the table pass keeps every run's RGB colour, so the cell writes that follow it never meet a run without one |
| Fonts.SetShapeFontAsWritten | bot/ppt_service.py:24-49 | `_set_shape_font` as written returns a shape iff it is not a text shape or all its runs have an RGB colour, and that shape is the corrected one |
| Fonts.SetShapesFontAsWritten | bot/ppt_service.py:21-22 | the shape loop as written finishes iff every text shape's runs have an RGB colour, and then gives the corrected slide |
| Fonts.EnsureConsistentFontsCons | bot/ppt_service.py:20-22 | the deck pass is the first slide's pass followed by the pass over the remaining slides |
| Fonts.SetSlidesFontAsWritten | bot/ppt_service.py:20-22 | the slide loop as written finishes iff every text run of the slides has an RGB colour, and then gives the corrected slides |
| Fonts.EnsureConsistentFontsAsWritten | bot/ppt_service.py:18-22 | `_ensure_consistent_fonts` as written finishes iff every text run of the deck has an RGB colour, and then gives the corrected deck |
| Substitution.SafeTextReplace | bot/ppt_service.py:131-161 | structure is kept; each run holding the old text has every occurrence replaced by the new one and is restyled; other runs are untouched; as corrected (see Findings) |
| Substitution.SplitPlaceholderUnchanged | bot/ppt_service.py:136-146 | when no single run contains the placeholder, nothing changes, even if the shape's text does |
| Substitution.SplitPlaceholderExample | bot/ppt_service.py:136-146 | `Назва` + `ние` in two runs stays as it was |
| Substitution.FirstMarkedShape | bot/ppt_service.py:122-127 | the index returned is the first shape whose text contains the marker; none means no shape does |
| Substitution.ReplaceCompanyName | bot/ppt_service.py:120-129 | only slide 1 changes, and only the first shape containing `Название`; every other shape is kept; as corrected (see Findings) |
| Substitution.CompanyNameAbsentIsNoOp | bot/ppt_service.py:120-129 | without `Название` on slide 1 the deck is unchanged |
| Substitution.FirstQualifyingRun | bot/ppt_service.py:282-284 | the first run, in order, that contains the old text or is non-blank; none means no run qualifies |
| Substitution.FirstQualifying | bot/ppt_service.py:281-284 | the first qualifying run in paragraph-then-run order, with every earlier run not qualifying |
| Substitution.SafeCellReplace | bot/ppt_service.py:276-307 | exactly the first qualifying run gets the new text with Montserrat; with no qualifying run the cell is unchanged; as corrected (see Findings) |
| Substitution.SingleRunCellRewritten | bot/ppt_service.py:276-307 | a one-run cell shows exactly the new text afterwards |
| Substitution.RunlessCellUnchanged | bot/ppt_service.py:276-307 | a cell with no runs is left as it was |
| Substitution.EmptyCellTakesFirstRun | bot/ppt_service.py:276-307 | with an empty cell text, `""` matches and the first run takes the new text |
| Substitution.FirstStop | bot/ppt_service.py:137-145 | the first run, in paragraph/run order, that a pass touches and that has no RGB colour; none means no such run |
| Substitution.FramePassAsWritten | bot/ppt_service.py:137-161 | a run loop as written raises iff some touched run has no RGB colour; runs before that one get the step, it and later ones are kept |
| Substitution.SafeTextReplaceAsWritten | bot/ppt_service.py:131-161 | as written, it raises iff a run holding the old text has no RGB colour; runs before the first such one are as corrected, the rest unchanged; with no such run it is the corrected replacement |
| Substitution.ReplaceCompanyNameAsWritten | bot/ppt_service.py:120-129 | as written, only the marked shape of slide 1 changes, to the replacement cut short at a run without an RGB colour; with RGB colours throughout it is the corrected pass |
| Substitution.SafeCellReplaceAsWritten | bot/ppt_service.py:276-307 | as written, it raises iff the first qualifying run has no RGB colour, and then leaves the cell as it was; otherwise it is the corrected write |
| Substitution.SafeCellReplaceAsWrittenAgrees | bot/ppt_service.py:276-307 | a cell whose runs all have an RGB colour is always written |
| Money.FormatMoney | bot/ppt_service.py:166 | the text is the grouped digits plus ` ₽`; removing the spaces gives back `str(n)`; digit groups are separated by single spaces |
| Money.GroupDigitsUngroup | bot/ppt_service.py:166 | removing the group separators from a grouped number gives back its digits |
| Money.CommasToSpaces | bot/ppt_service.py:166 | replacing `,` with a space in Python's grouped form gives the space-grouped form |
| Money.MoneyText | bot/ppt_service.py:166 | the format expression and the model agree, and the amount ungroups to `str(n)` |
| Money.FormatExample | bot/ppt_service.py:166 | 95000 is `95 000 ₽` and 0 is `0 ₽` |
| Pricing.LineTotalIsPriceTimesQuantity | bot/ppt_service.py:225-237 | each line total is its unit price times its quantity |
| Pricing.GrandTotal | bot/ppt_service.py:225-239 | total = 15000 + 15000·hr + 1000·employees + 600000 if on-premises is `Да` |
| Pricing.GrandTotalIsSumOfLines | bot/ppt_service.py:231-239 | the four line totals sum to the grand total |
| Pricing.GrandTotalExample | bot/ppt_service.py:225-239 | hr=2, employees=50 gives 95000 off-premises and 695000 on-premises, formatted `95 000 ₽` |
| Pricing.KeywordGroupsReduce | bot/ppt_service.py:251-270 | each keyword list is matched iff its shortest word is, because the longer words contain it |
| Pricing.Classify | bot/ppt_service.py:245-272 | first match in the order base, hr, employee, on-premise, total; each kind holds iff its keyword occurs and no earlier one does |
| Pricing.OnPremiseQuantityText | bot/ppt_service.py:263-266 | the on-premise quantity is `1 шт` for `Да` and `0 шт` otherwise |
| Pricing.FillRow | bot/ppt_service.py:245-272 | quantity in cell 2 only with at least 3 cells, price in cell 4 only with at least 5; the total row gets no quantity; other cells are kept; the cell writes as corrected (see Findings) |
| Pricing.FillCalculationTable | bot/ppt_service.py:224-274 | returns the grand total; every row is filled by its own classification, with the total row priced at that total; the cell writes as corrected (see Findings) |
| Pricing.UnmatchedRowUnchanged | bot/ppt_service.py:242-272 | a row that matches no keyword is left unchanged |
| ThirdTable.TableIndex | bot/ppt_service.py:208-213 | the index is a table shape; none means there are no more tables on the slide |
| ThirdTable.NthTable | bot/ppt_service.py:205-215 | the n-th table in slide-then-shape order; none means fewer than n+1 tables |
| ThirdTable.NthTableFound | bot/ppt_service.py:205-215 | the n-th table exists iff the deck has more than n tables |
| ThirdTable.TableIndexFound | bot/ppt_service.py:208-213 | the n-th table on a slide exists iff the slide has more than n tables |
| ThirdTable.UpdateThirdTable | bot/ppt_service.py:205-222 | only the third table is filled and the total is returned; without one, the deck is unchanged and 0 is returned; as corrected (see Findings) |
| ThirdTable.FewTablesNoTotal | bot/ppt_service.py:205-222 | with fewer than 3 tables, the deck is unchanged and the result is 0 |
| ThirdTable.ManyTablesGrandTotal | bot/ppt_service.py:205-222 | with at least 3 tables, the returned value is the grand total, as corrected (see Findings) |
| ThirdTable.UpdateThirdTableAsWritten | bot/ppt_service.py:205-222 | as written, the total is the grand total iff the third table exists and its runs all have RGB colours, else 0; a third table with a run without one is left restyled up to that run and unfilled, nothing else changes |
| ThirdTable.ManyTablesAsWritten | bot/ppt_service.py:205-222 | with at least 3 tables, the total as written is 0 when the third table has a run without an RGB colour, unlike the corrected grand total |
| PricePattern.RunLength | bot/ppt_service.py:184-188 | the greedy run of digits and whitespace: all of it qualifies, and the next character does not |
| PricePattern.MatchLength | bot/ppt_service.py:184-188 | a match is at least a digit and `₽` long |
| PricePattern.MatchAtIff | bot/ppt_service.py:184-188 | the computed match is the price literal at the front, and it is the only prefix that is one |
| PricePattern.Substitute | bot/ppt_service.py:184-188 | text with no match is returned unchanged |
| PricePattern.SubstituteIdempotent | bot/ppt_service.py:184-188 | substituting a price literal a second time changes nothing |
| PricePattern.MoneyIsPriceLiteral | bot/ppt_service.py:166-188 | a formatted non-negative total itself matches `\d[\d\s]*₽` |
| PricePattern.MoneySubstituteIdempotent | bot/ppt_service.py:163-201 | rewriting with the same total twice equals doing it once |
| PriceText.FirstMarkedInDeck | bot/ppt_service.py:167-170 | the first slide, in order, holding a shape with the caption, and the first such shape on it |
| PriceText.UpdatePriceInFrame | bot/ppt_service.py:171-199 | structure is kept; each run with a match is substituted and restyled; a run with none is untouched; as corrected (see Findings) |
| PriceText.UpdatePriceText | bot/ppt_service.py:163-203 | only the first captioned shape changes; without a caption the deck is unchanged; as corrected (see Findings) |
| PriceText.UpdatePriceInFrameIdempotent | bot/ppt_service.py:171-199 | rewriting a frame twice with the same total equals once |
| PriceText.UpdatePriceTextIdempotent | bot/ppt_service.py:163-203 | re-running the update with the same total is a no-op, as long as the caption survives |
| PriceText.NoCaptionNoChange | bot/ppt_service.py:163-203 | a deck without the caption is unchanged |
| PriceText.UpdatePriceInFrameAsWritten | bot/ppt_service.py:171-199 | as written, it raises iff a run holding a price has no RGB colour; runs before the first such one are as corrected, the rest unchanged; with no such run it is the corrected rewrite |
| PriceText.UpdatePriceTextAsWritten | bot/ppt_service.py:163-203 | as written, only the first captioned shape changes, to the rewrite cut short at a run without an RGB colour; with RGB colours throughout it is the corrected update |
| Filler.TemplateFile | bot/ppt_service.py:80-83 | the long template iff the type is `long`, else the short one |
| Filler.TablePass | bot/ppt_service.py:93-100 | the font, company-name and table passes keep every shape's kind; the total is the grand total with 3 tables, else 0; as corrected (see Findings) |
| Filler.FillDeck | bot/ppt_service.py:93-103 | the four passes keep every shape's kind in place; the total is the grand total iff the template has 3 tables, else 0; as corrected (see Findings) |
| Filler.FillDeckTableFilled | bot/ppt_service.py:93-103 | with 3 tables, the filled deck's third table keeps its place and row count and every row is filled from the pricing data with the returned total, which is the grand total; as corrected (see Findings) |
| Filler.FillDeckTotalsAgree | bot/ppt_service.py:93-103 | with 3 tables, a total row of five or more cells in the filled deck's third table shows the returned total in cell 4; as corrected (see Findings) |
| Filler.FillDeckCaptionPrice | bot/ppt_service.py:93-103 | the price summary of the filled deck is rewritten with the same total the table fill returned |
| Filler.PassesKeepTables | bot/ppt_service.py:93-97 | the font and company-name passes only rewrite text shapes; every table stays where and as it was |
| Filler.PricePassKeepsTables | bot/ppt_service.py:163-203 | the price pass only rewrites a text shape, so the filled table survives it |
| Filler.NthTableSameKinds | bot/ppt_service.py:205-215 | where the third table is depends only on which shapes are tables |
| Filler.NthTableByKinds | bot/ppt_service.py:205-215 | the table search gives the same slide and shape as a search over the table/non-table pattern of the deck alone |
| Filler.FillDeckTables | bot/ppt_service.py:93-99 | the font and name passes keep the number of tables |
| Filler.CreateProposal | bot/ppt_service.py:76-118 | for a complete request, no deck iff the template cannot be loaded; otherwise exactly the filled deck of the loaded template, with its total; as corrected (see Findings) |
| Filler.PassesKeepThirdTable | bot/ppt_service.py:93-100 | the font and name passes leave the third table where it was, with the same colours |
| Filler.CreateProposalAsWritten | bot/ppt_service.py:76-118 | as written, a deck comes back iff the template loads and all its text runs have RGB colours; the total is the grand total iff the third table's runs also do, else 0; with RGB colours throughout it is the corrected proposal |
| Filler.TextRunsKeepRgb | bot/ppt_service.py:93-103 | once the font pass went through, the name pass and the table fill keep every text run's RGB colour, so the name and price passes as written never stop |
| Filler.FontPassKeepsRgb | bot/ppt_service.py:18-49 | the font pass keeps every text run's RGB colour |
| Filler.NamePassKeepsRgb | bot/ppt_service.py:120-161 | the company-name pass keeps every text run's RGB colour |
| Filler.TableFillKeepsRgb | bot/ppt_service.py:205-222 | the table fill as written leaves text shapes alone, so their RGB colours stay |
| Filler.InheritedColourStopsProposal | bot/ppt_service.py:36 | a template whose one run inherits its colour gives no proposal as written, and a proposal as corrected |
| Text.Strip | bot/handlers.py:77 | strip drops the leading whitespace and the trailing whitespace, and nothing from the middle: what is dropped is whitespace and what is kept starts and ends with a non-space |
| Text.StripEmptyIff | bot/handlers.py:77-78 | the stripped text is empty iff the text is all whitespace |
| Text.SplitJoin | bot/handlers.py:45 | joining the parts of a split with the separator gives back the text |
| Text.ParseIntOfString | bot/handlers.py:108 | `int(str(i)) == i` |
| Values.Str | bot/google_slides_service.py:38 | `str()` of a text is the text; of a number, it parses back to the number; of a list, it is bracketed |
| FormInput.AcceptPhone | bot/handlers.py:76-83 | accepted iff the stripped text is non-empty and only digits, whitespace, `-+()`; the stripped text is stored |
| FormInput.PhoneCharsIff | bot/handlers.py:78 | the phone regex matches iff every character is allowed |
| FormInput.AcceptPhoneStable | bot/handlers.py:76-83 | a stored phone is accepted again as itself |
| FormInput.PhoneAccepted | bot/handlers.py:76-83 | ` +7 (999) 123-45-67 ` is stored as `+7 (999) 123-45-67` |
| FormInput.PhoneAcceptedAround | bot/handlers.py:76-83 | any valid number with surrounding spaces is stored without them |
| FormInput.PhoneRejected | bot/handlers.py:76-83 | blanks and letters are rejected |
| FormInput.ValidEmailIff | bot/handlers.py:93 | the split at `@` and the last `.` is valid iff some split matches the email pattern |
| FormInput.AcceptEmail | bot/handlers.py:91-98 | accepted iff the stripped text is local@domain.tld with the regex's character classes and a label of 2+ letters |
| FormInput.EmailAccepted | bot/handlers.py:91-98 | `ivan.petrov@mail.ru` is accepted |
| FormInput.EmailShortLabelRejected | bot/handlers.py:93 | a one-letter final label is rejected |
| FormInput.EmailTwoAtsRejected | bot/handlers.py:93 | `ivan@@mail.ru` is rejected |
| FormInput.AcceptEmployees | bot/handlers.py:106-116 | accepted iff the text parses as an integer and it is positive |
| FormInput.AcceptEmployeesOfString | bot/handlers.py:106-116 | `str(n)` is accepted as n iff n > 0 |
| FormInput.AcceptBudget | bot/handlers.py:225-234 | accepted iff, with spaces and commas removed, it parses as a positive integer, and that integer is the one stored |
| FormInput.AcceptBudgetOfAmount | bot/handlers.py:225-234 | a space-grouped amount is read back as its value |
| FormInput.BudgetGrouped | bot/handlers.py:225-234 | `1 000,000` is 1000000 |
| FormInput.BudgetNotPositive | bot/handlers.py:228-229 | `0` and `-5 000` are rejected |
| FormInput.LabelOr | bot/handlers.py:138 | a known callback gives its label, an unknown one `Не указано` |
| FormInput.ServiceLabel | bot/handlers.py:131-140 | `Не указано` iff the callback is unknown; different callbacks give different labels |
| FormInput.PeriodLabel | bot/handlers.py:156-165 | `Не указано` iff the callback is unknown; different callbacks give different labels |
| FormInput.TemplateChoice | bot/handlers.py:44-47 | a segment exists iff the callback has `_`; it contains no `_` |
| FormInput.TemplateChoiceOf | bot/handlers.py:45 | the segment after the first `_` up to the next one is chosen |
| FormInput.TemplateChoiceButtons | bot/handlers.py:45 | `template_long` gives `long` and `template_short` gives `short` |
| Conversation.Position | bot/states.py:4-14 | every state has its place in the order |
| Conversation.Next | bot/states.py:4-14 | the successor is the next state in order; the last state has none |
| Conversation.OrderIsAPermutation | bot/states.py:4-14 | the order lists each state exactly once |
| Conversation.KeysDistinct | bot/handlers.py:46-234 | different states store under different keys, none of them the date key |
| Conversation.AddService | bot/handlers.py:198-206 | a known service not yet chosen is appended; otherwise nothing is added |
| Conversation.AddServiceKeepsDistinct | bot/handlers.py:203-206 | the chosen services stay duplicate-free in first-selection order |
| Conversation.StartKp | bot/handlers.py:22-41 | `/kp` starts at the template question with no stored answers, as corrected below |
| Conversation.Answered | bot/handlers.py:56-165 | an accepted answer is stored under its own key and moves one step on; a rejected one changes nothing |
| Conversation.Submitted | bot/handlers.py:225-268 | a valid budget hands over the answers plus the budget and the date, then clears the state; an invalid one changes nothing |
| Conversation.TextAnswer | bot/handlers.py:56-116 | a text answer is produced iff the current state's validator accepts it |
| Conversation.OnMessage | bot/handlers.py:56-234 | the state advances iff the answer is accepted; a rejection changes nothing; only the current key changes |
| Conversation.OnServicesButton | bot/handlers.py:183-206 | skip closes the list and moves to the budget; a service button only adds to the list |
| Conversation.OnButton | bot/handlers.py:44-206 | the state advances iff the callback is accepted; only the current key changes |
| Conversation.Step | bot/handlers.py:22-268 | `/kp` starts an empty form, as corrected below; the state advances exactly on acceptance; a rejection keeps the state; only the current key changes; a submission happens iff a valid budget arrives |
| Conversation.StepNoLoop | bot/states.py:4-14 | no state is its own successor |
| FormFlow.KeysBeforeNext | bot/states.py:4-14 | the keys before the next state are the keys before this one plus its own |
| FormFlow.StepKeepsInv | bot/handlers.py:22-268 | every step keeps the stored keys exactly those of the questions already answered |
| FormFlow.AcceptedKeepsInv | bot/handlers.py:56-206 | an accepted answer keeps the invariant |
| FormFlow.RejectedKeepsInv | bot/handlers.py:56-234 | a rejected answer keeps the invariant |
| FormFlow.RunKeepsInv | bot/handlers.py:22-268 | any sequence of events keeps the invariant |
| FormFlow.InitialInv | bot/handlers.py:22-41 | a fresh session satisfies the invariant |
| FormFlow.SubmissionComplete | bot/handlers.py:225-268 | a submitted form holds exactly the ten answers and the date, with a positive budget, and the session is cleared |
| FormFlow.StartKpAsWritten | bot/handlers.py:41 | `/kp` as written resets the state but keeps the stored answers |
| FormFlow.StepAsWritten | bot/handlers.py:22-41 | the step with `/kp` as written, otherwise the same step |
| FormFlow.StaleAnswersBreakInv | bot/handlers.py:41 | as written, `/kp` after an abandoned form breaks the invariant; with the clear it holds |
| FormFlow.EarlyStepsKeepServices | bot/handlers.py:183-185 | a stale services value survives every step before the services question |
| FormFlow.StaleServicesJoinedByCharacter | bot/handlers.py:193-196 | a stale text `1С` is closed as `1, С` |
| FormFlow.ServicesClosedFromList | bot/handlers.py:193-196 | from a consistent session, skip stores `Не требуются` for no choice, else the choices joined with `, ` |
| SlidesRequests.PassRequests | bot/google_slides_service.py:32-49 | one request per key in map order, with the token braced and the value as `str()` |
| SlidesRequests.BuildRequests | bot/google_slides_service.py:32-49 | 2n requests: the first n are `{{KEY}}` in map order, the last n are `{KEY}` in the same order |
| SlidesRequests.ApplyAppend | bot/google_slides_service.py:51-54 | applying two request lists in turn is applying their concatenation |
| SlidesRequests.Lookup | bot/google_slides_service.py:74-85 | none iff the key is absent; otherwise the value of an entry with that key |
| SlidesRequests.LookupDistinct | bot/google_slides_service.py:74-85 | with distinct keys, a key finds its own value |
| SlidesRequests.ReplaceToken | bot/google_slides_service.py:34-49 | one replace-all of a token turns exactly the matching pieces into the value, leaving the rest |
| SlidesRequests.PassResolves | bot/google_slides_service.py:32-49 | one pass of requests resolves each piece of that pass's brace kind |
| SlidesRequests.DoublePassClears | bot/google_slides_service.py:32-40 | after the double-brace pass, no `{{KEY}}` of a known key is left |
| SlidesRequests.RequestsResolvePlaceholders | bot/google_slides_service.py:32-49 | applying the requests in order resolves every `{{KEY}}` and `{KEY}` to its value, and `{{KEY}}` never leaves braces |
| SlidesRequests.SingleFirstLeavesBraces | bot/google_slides_service.py:32-49 | if the single-brace pass ran first, `{{K}}` would become `{v}` |
| SlidesRequests.DoubleFirstLeavesValue | bot/google_slides_service.py:32-49 | with double first, `{{K}}` becomes `v` |
| SlidesService.TemplateId | bot/google_slides_service.py:63 | the long id iff the template type is `long`, the short id for any other value |
| SlidesService.FieldOr | bot/google_slides_service.py:74-85 | a present field gives its value, a missing one `''` |
| SlidesService.ReplacementMap | bot/google_slides_service.py:74-85 | always the same ten keys in order, each with its field's value or `''` |
| SlidesService.PlaceholdersWellFormed | bot/google_slides_service.py:74-85 | the ten keys are distinct and brace-free |
| SlidesService.PlaceholderFields | bot/google_slides_service.py:74-85 | the nine form fields in order, then `current_date` |
| SlidesService.Title | bot/google_slides_service.py:66 | a title iff company and contact are present; it is `КП для <company> - <contact>` |
| SlidesService.TitleParts | bot/google_slides_service.py:66 | the title starts with `КП для `, then the company, and ends with the contact |
| SlidesService.EditUrl | bot/google_slides_service.py:91 | the edit link starts with `https://docs.google.com/presentation/d/`, ends with `/edit`, and has room for exactly the id between them |
| SlidesService.EditUrlId | bot/google_slides_service.py:91 | the prefix, then the id, then `/edit` can be read back out of the link |
| SlidesService.EditUrlInjective | bot/google_slides_service.py:91 | different ids give different links |
| SlidesService.CreateKpPresentation | bot/google_slides_service.py:61-93 | a missing title key aborts with no call; otherwise copy first; a failed copy returns nothing without an update; else the update gets the built requests and the link is returned |
| SlidesService.LinkIgnoresUpdate | bot/google_slides_service.py:87-93 | the result does not depend on whether the update succeeded |
| SlidesService.SubmittedFieldsPresent | bot/google_slides_service.py:66-85 | a submitted form has every placeholder's field and a title |
| SlidesService.SubmissionFillsEveryPlaceholder | bot/handlers.py:236-246 | a form submitted from a consistent session fills every placeholder from its own answer, never the `''` default |
| SlidesService.KpRequestsResolve | bot/google_slides_service.py:74-88 | the proposal's requests resolve each placeholder to its field's value |
| SlidesService.LookupPlaceholder | bot/google_slides_service.py:74-85 | each placeholder key finds its own field's value |
| SlidesService.PlaceholderResolvesToField | bot/google_slides_service.py:74-85 | both brace forms of a placeholder resolve to its field's value, and to `''` when the field is missing |
| SlidesService.TitleExample | bot/google_slides_service.py:66-91 | `КП для Ромашка - Иван`, and the link for id `abc` |

## Left out

- Loading and saving `.pptx` files, the output directory, the timestamped
  file name and `os.makedirs` are I/O; the loader is a parameter.
- `convert_to_pdf` calls LibreOffice through a subprocess with a timeout.
- The Google credentials, the Drive `copy`, and the Slides `batchUpdate`
  `execute()` calls are foreign calls. They are parameters.
- The exceptions a Google call raises other than an HTTP error are not modelled.
- Keyboards, message texts, the `/start` reply, command parsing, the async
  handlers and FSM storage are transport. A handler is one step of a pure
  state machine. A message without text is not modelled.
- Every exception handler that prints and swallows the error is a total
  function. Of python-pptx's failures only one is modelled: reading the
  colour of a run without an RGB value (see Findings).
- The read of `run.font.color` that raises also gives that run an empty
  solid fill; the run the as-written passes stop at is modelled as left
  unchanged.
- Deck.Restyle: as corrected: a run without an RGB colour is restyled and keeps its inherited colour, where the source raises on reading its colour (bot/ppt_service.py:36).
- Fonts.RestyleRuns: as corrected: a run without an RGB colour is restyled and keeps its inherited colour, where the source raises and stops the loop; that loop is Fonts.RestyleRunsAsWritten.
- Fonts.RestyleParagraphs: as corrected: a run without an RGB colour is restyled and keeps its inherited colour, where the source raises; that loop is Fonts.RestyleParagraphsAsWritten.
- Fonts.SetShapeFont: as corrected: a run without an RGB colour is restyled and keeps its inherited colour, where the source raises; that pass is Fonts.SetShapeFontAsWritten.
- Fonts.SetTableFont: as corrected: a run without an RGB colour is restyled and keeps its inherited colour, where the source raises (bot/ppt_service.py:63); that pass is Fonts.SetTableFontAsWritten.
- Fonts.EnsureConsistentFonts: as corrected: a run without an RGB colour is restyled and keeps its inherited colour, where the source raises, so the whole deck pass fails; that pass is Fonts.EnsureConsistentFontsAsWritten.
- Substitution.SafeTextReplace: as corrected; the source stops at the first run holding the old text without an RGB colour (bot/ppt_service.py:145), modelled by Substitution.SafeTextReplaceAsWritten.
- Substitution.ReplaceCompanyName: as corrected; as written the replacement in the marked shape stops at a run without an RGB colour and the handler swallows the error (Substitution.ReplaceCompanyNameAsWritten). In the deck pipeline it never stops (Filler.TextRunsKeepRgb).
- Substitution.SafeCellReplace: as corrected; the source raises when the first qualifying run has no RGB colour (bot/ppt_service.py:290), modelled by Substitution.SafeCellReplaceAsWritten.
- Pricing.FillRow: its cell writes are the corrected Substitution.SafeCellReplace. In the deck pipeline they follow a table font pass that only finishes when every run of the table has an RGB colour and keeps them (Fonts.SetTableFontKeepsRgb, Substitution.SafeCellReplaceAsWrittenAgrees), so the raising write does not arise there; a row fill as written is not modelled.
- Pricing.FillCalculationTable: the same holds; a write that raised would end the fill and make the third-table update return 0, and this table fill as written is not modelled separately.
- PriceText.UpdatePriceInFrame: as corrected; the source stops at the first run holding a price without an RGB colour (bot/ppt_service.py:180), modelled by PriceText.UpdatePriceInFrameAsWritten.
- PriceText.UpdatePriceText: as corrected; as written the rewrite stops there and the handler swallows the error (PriceText.UpdatePriceTextAsWritten). In the deck pipeline it never stops (Filler.TextRunsKeepRgb).
- ThirdTable.UpdateThirdTable: as corrected; as written a third table with a run without an RGB colour is left restyled up to that run, unfilled, and 0 is returned (ThirdTable.UpdateThirdTableAsWritten).
- ThirdTable.ManyTablesGrandTotal: as corrected; as written the total is 0 when the third table has a run without an RGB colour (ThirdTable.ManyTablesAsWritten).
- Filler.TablePass: the corrected passes; as written the font pass it starts with fails on a text run without an RGB colour, and the table fill gives 0 on such a run in the third table (Filler.CreateProposalAsWritten).
- Filler.FillDeck: the corrected pipeline; as written it gives no deck or a 0 total in the cases above (Filler.CreateProposalAsWritten).
- Filler.FillDeckTableFilled: the corrected pipeline; as written the third table is left unfilled when one of its runs has no RGB colour (ThirdTable.UpdateThirdTableAsWritten).
- Filler.FillDeckTotalsAgree: the corrected pipeline; as written the same restriction applies, and the caption then shows `0 ₽`.
- Filler.CreateProposal: the corrected pipeline; as written it also returns None when a text run of the template has no RGB colour (Filler.CreateProposalAsWritten, Filler.InheritedColourStopsProposal).
- FrameText and ParagraphText join the runs' texts only. Line breaks
  (`a:br`, which python-pptx reads as a vertical tab) and fields (`a:fld`)
  are not modelled, so a cell holding only a break counts as empty, as in
  EmptyCellTakesFirstRun.
- FormInput.TemplateChoice: a callback without `_` makes the source raise
  `IndexError` (bot/handlers.py:45); the model returns no choice and the
  session is left unchanged, which is the same effect on the state.
- Filler.CreateProposal: the request record (`ProposalData`, `PricingData`)
  always carries every field, so no missing-key path is modelled. In the
  source, a missing `company_name` makes `create_kp_presentation` return
  None (bot/ppt_service.py:97, 116-118).
- ThirdTable.UpdateThirdTable: a missing pricing key in the source raises
  inside `_fill_calculation_table` after the third table was restyled; that
  table is then left restyled but unfilled and 0 is returned
  (bot/ppt_service.py:213-222). The model always fills it.
- Python's regex `\d` and `\s`, `str.strip` and `str.lower` are limited to
  ASCII digits and whitespace, plus basic Cyrillic letters for `lower`.
- Python `int()` is an optional sign followed by ASCII digits, after `strip`.
  Underscores and non-ASCII digits are not modelled.
- Text.ParseInt: Python refuses to convert a text of more than 4300 digits
  (bot/handlers.py:108, 227); the model accepts any length.
- Values.Str: `str()` of a list is only known to be bracketed. The quoting
  and escaping of `repr` for the items is not modelled.
- Concrete font sizes and colours are opaque values. A colour of `None`
  stands for one without an explicit RGB value: inherited or a theme colour.
- Fonts.SetTableFont: underline is not restored in tables.
  - The model passes a flag for this.
  - Restyling keeps the underline either way, so the result does not depend on the flag.
- Google `replaceAllText` is modelled as case-sensitive. The API's default
  of ignoring case is left out.
- SlidesRequests.RequestsResolvePlaceholders requires that no key, value or
  literal text contains a brace. The intended condition is weaker: that no
  value contains a placeholder.
- SlidesService.KpRequestsResolve has the same brace-free hypothesis on the
  answers.
- PriceText.UpdatePriceTextIdempotent assumes the caption survives the
  first rewrite. It should, because the `12` in the caption is followed by a
  letter, not by `₽`, so no match can reach into it; that argument is not proved.
- SlidesService.CreateKpPresentation: a `KeyError` for the title is modelled
  as a `KeyMissing` result, not as an exception.
- Conversation.AddService: a service button pressed while the stored services
  are a text (only possible through the `/kp` finding below) leaves them
  unchanged; the handler would raise on `append` or skip on a substring match.

## Findings

| source | as written | input that shows it | evidently intended | confidence | as-written member | corrected member |
|---|---|---|---|---|---|---|
| bot/handlers.py:41 | `/kp` only sets the state to the template question; the answers of an abandoned form stay stored | finish the services step with `Обучение сотрудников` chosen, leave the form at the budget question, send `/kp`, answer again up to the services question and press skip: the stored text is joined character by character, `О, б, у, …` (a service button that is not a substring of it fails on `append`) | `/kp` starts from an empty form | medium, not executed | FormFlow.StartKpAsWritten, FormFlow.StaleAnswersBreakInv, FormFlow.StaleServicesJoinedByCharacter | Conversation.StartKp, FormFlow.StepKeepsInv, FormFlow.ServicesClosedFromList |
| bot/ppt_service.py:36 | every font and text pass reads `run.font.color.rgb` before testing it (also at lines 63, 145, 180 and 290); python-pptx raises on that read for a run whose colour is inherited or a theme colour, so the deck font pass aborts and `create_kp_presentation` returns None, and a third table with such a run is left unfilled with total 0 | a template whose title run `Название` has no explicit colour (`InheritedColourTemplate`) | the run keeps its inherited colour and the proposal is built | medium, not executed (rests on python-pptx's colour classes) | Filler.CreateProposalAsWritten, Filler.InheritedColourStopsProposal, ThirdTable.UpdateThirdTableAsWritten, ThirdTable.ManyTablesAsWritten, Fonts.EnsureConsistentFontsAsWritten | Filler.CreateProposal, ThirdTable.UpdateThirdTable, ThirdTable.ManyTablesGrandTotal, Fonts.EnsureConsistentFonts |
