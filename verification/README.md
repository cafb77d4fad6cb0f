# myInvo invoicing core in Dafny

This project models the pure core of myInvo, a desktop tool that issues
quotes (*devis*) and invoices (*factures*). It proves properties of that
model. The model covers:

- the pricing model of `models.py`: clients, lines, the issuing company,
  documents and their totals, and the tax breakdown by rate;
- the window's working state and its transitions in `main.py`:
  - adding, deleting and resetting lines;
  - reading the client fields;
  - the export command and the checks it makes in order;
  - the JSON archive, written and read back;
  - loading an archive into the form;
  - the default preferences;
  - the start-up title chosen from the licence;
- the layout of the PDF in `pdf_generator.py`: which blocks the page holds,
  in which order, and the lines and rows of each.

Layout, one module per file:

| file | module | contents |
|---|---|---|
| wrappers.dfy | Wrappers | `Option` |
| text.dfy | Text | Python's `strip`, ASCII case mapping, one-character `replace`, fixed-width digits |
| calendar.dfy | Calendar | the proleptic Gregorian date-time of Python's `datetime`, and adding days |
| datetext.dfy | DateText | `isoformat`/`fromisoformat`, `strftime`/`strptime` with `%d/%m/%Y`, and the generated document number |
| numbers.dfy | Numbers | `Decimal(text)` and `float(text)` on decimal literals, read exactly |
| models.dfy | Models | `Client`, `Article`, `Entreprise`, `Document` with its two kinds, totals, `get_tva_par_taux` |
| display.dfy | Display | the five cells of a line, in the window and on paper |
| archive.dfy | Archive | the archive record and its reader |
| form.dfy | Form | the form state and its transitions |
| pdf.dfy | Pdf | the PDF story |
| export.dfy | Export | `generer_pdf` and `check_license` |

## Modelling choices

- **Numbers.** `Decimal` amounts are Dafny `real`s, which are exact. The
  quantity is parsed with `float`, and the archive stores amounts as
  floats. Both steps are assumed exact: they are an assumption here, not a
  proved property.
- **Dates.** A date-time is modelled by its civil fields. `DayNumber`
  (Gregorian days from civil) is the reference for adding days.
  `InRange` is the range Python's `datetime` holds (years 1 to 9999). A
  date computation that leaves that range is an error, as Python's
  `OverflowError` is.
- **Formatting.** Formatted amounts stay symbolic. A `Cell` records its
  value and the format applied (`Shown` for `str(x)`, `Fixed` for
  `:.2f`/`:.1f`), not the digits. On a `Decimal` these formats round half
  to even. `Display.Printed` is what a cell shows: the value rounded to
  the cell's decimals.
- **Inputs.** The licence manager, the clock, the user's replies, the
  selected row, the path chosen in the save dialog, and what the file
  system says about the logo are all parameters.
- **Archive record.** The record is a JSON value (`Json`), not text. The
  reader answers `None` where `charger_document` raises and returns
  `(None, None)`. Because its fields are typed, it also answers `None`
  for some records that Python loads; the list of what is left out names
  these under Archive.Decode and Archive.DecodeKind.
- **Clock.** Each `datetime.now()` is a separate input.
  `generer_numero_document` reads the clock twice, so the number takes
  two reads (`ClockReads`). `reinitialiser` reads it a third time for the
  date field.

Behaviours of the code that the model keeps:

- The archive stores amounts as floats, not as decimal strings
  (main.py:788-795).
- The archive reader treats every tag other than `"devis"` as an invoice
  (main.py:838-864). It does not refuse unknown tags.
- The archive reader fills in "" for a client's missing address fields
  (main.py:826-828). Only `nom` is required by `Client` (models.py:11-20).
- A quote whose end of validity falls after year 9999 fails while its PDF
  is laid out, after its archive has been written (main.py:695-699). The
  error is an `OverflowError`, not a `ValueError`. So the generic handler
  at main.py:707-709 reports it in a message box, not the date handler at
  main.py:704-706.
- The window shows a quantity as `str(...)` of its value.
- `conditions` and `notes` are required keys when reading an archive.
- Loading a document leaves the form's date field as it was.
- A record whose `type` is not a text, such as `1` or `null`, loads as an
  invoice: the form is filled, then `type_doc.capitalize()` fails
  (main.py:932). Nothing catches it, so the program stops.
- An invoice whose default due date falls after year 9999 fails while the
  document is built, so nothing is written.
- `check_license` on an activated copy without an installation record
  fails, because it calls `.get` on `None`.

## Model

| member | source | states |
|---|---|---|
| Text.StripEmptyIffAllSpace | main.py:503-516 | a field strips to the empty text exactly when it holds only whitespace, which is the "missing field" test of the handlers |
| Text.StripIdempotent | main.py:593-604 | stripping a second time changes nothing |
| Text.ReplaceCharRemoves | main.py:518-520 | after `replace(',', '.')` no comma is left, so replacing again changes nothing; a text without a comma is kept as it is |
| Text.PadDigitsRoundTrip | main.py:448-450 | a number written with `width` zero-padded digits reads back as that number |
| Text.DigitsValueRoundTrip | main.py:448-450 | a digit string is the padded form of its own value, so the digit codec is a bijection at a fixed width |
| Calendar.NextDay | models.py:104-107 | the next calendar day is a valid date one day number later, at the same time of day |
| Calendar.PrevDay | models.py:104-107 | the previous calendar day is a valid date one day number earlier, at the same time of day |
| Calendar.AddDays | models.py:104-107 | `date + timedelta(days=n)` is a valid date `n` day numbers away, at the same time of day |
| Calendar.DayNumberInjective | models.py:104-107 | two valid dates with the same day number are the same date |
| Calendar.AddDaysUnique | models.py:104-107 | `AddDays` gives the only valid date-time that is `n` days away and keeps the time of day |
| DateText.ParseIso | main.py:845 | `fromisoformat` accepts only dates in range, with '-' at positions 4 and 7, in one of the four lengths |
| DateText.IsoRoundTrip | main.py:766-866 | what `isoformat` writes, `fromisoformat` reads back as the same date-time |
| DateText.IsoCanonical | main.py:766-866 | a full `T`-separated text that is accepted is exactly what `isoformat` writes for the result |
| DateText.ParseDmy | main.py:651-652 | `strptime` with `%d/%m/%Y` accepts only real dates in range and returns midnight |
| DateText.DmyRoundTrip | main.py:651-652 | the form's date text reads back as the same day at midnight |
| DateText.DmyExampleCanonical | main.py:651-652 | "01/01/2025" reads as 2025-01-01 00:00:00 |
| DateText.ParseDmyFields | main.py:651-652 | a date text is accepted exactly when its day field, month field and four-digit year are accepted and name a real date |
| DateText.DmyFieldExamples | main.py:651-652 | both fields accept unpadded values; the day field accepts a space-padded value and the month field refuses one; both refuse zero and out-of-range values |
| DateText.GenerateNumeroRoundTrip | main.py:448-450 | a number generated from one clock read names exactly that instant |
| DateText.GenerateNumeroInjective | main.py:448-450 | numbers generated at different seconds differ |
| DateText.TwoReadsMix | main.py:448-450 | the number from two clock reads is the number of a mixed instant: the first read's date and the second read's time; when both reads agree it is the one-read number |
| DateText.TwoReadsAcrossMidnight | main.py:448-450 | reads on the two sides of midnight give a number that names neither read, but an instant almost a day earlier |
| Numbers.ParseDecimal | main.py:518-520 | a number is read only from a text that is not blank, and only a leading '-' makes it negative |
| Numbers.UnsignedValueOfParts | main.py:518-520 | `whole.frac` reads as the value its digits denote |
| Numbers.UnsignedValueOfWhole | main.py:518-520 | a run of digits reads as that whole number |
| Numbers.CommaIsDecimalSeparator | main.py:518-520 | `a,b` and `a.b` read as the same number, the value of the digits |
| Numbers.LeadingLetterRejected | main.py:518-520 | an unsigned part (what follows the sign and the spaces) that starts with neither a digit nor the point is not a number |
| Numbers.DigitReads | main.py:518-520 | a single typed digit reads as its value |
| Numbers.LetterRejected | main.py:518-520 | a single character that is not a digit, separator, sign or space is refused |
| Models.NewClient | models.py:11-20 | every client field except `nom` defaults to "" |
| Models.NomCompletEmptyIff | models.py:22-26 | the display name is empty exactly when there is no company and the first and last names are blank |
| Models.NomCompletExamples | models.py:22-26 | Acme/Dupont gives "Acme", and no company with Jean/Dupont gives "Jean Dupont" |
| Models.NewArticle | models.py:30-35 | the rate of a new line defaults to 20.0 |
| Models.LineAmounts | models.py:37-47 | gross = quantity × price × (1 + rate/100); a zero rate adds nothing; the default rate adds a fifth |
| Models.NewEntreprise | models.py:51-61 | the optional company fields default to "" |
| Models.NewDevis | models.py:72-102 | a new quote has 30 days of validity and empty conditions and notes |
| Models.NewFacture | models.py:111-121 | an explicit due date is kept; otherwise the due date is 30 days after the issue date at the same time; no reference; not paid |
| Models.DateValidite | models.py:104-107 | a quote's end of validity is `validite_jours` days after its issue date, at the same time of day |
| Models.ValidityExamples | models.py:104-121 | a quote of 2025-01-01 is valid until 2025-01-31, and an invoice of that day is due on 2025-01-31 |
| Models.TotalTTCIsSumOfLines | models.py:75-85 | net total plus tax total is the sum of the lines' gross amounts |
| Models.EmptyDocumentTotals | models.py:75-85 | the sums start from 0, so a document without lines totals 0 |
| Models.SumsAppend | models.py:75-81 | the net and tax sums split over a concatenation of line lists |
| Models.SumsWithout | models.py:75-81 | removing the line at `i` lowers the sums by exactly that line's amounts |
| Models.TvaParTaux | models.py:87-96 | the breakdown has one group per distinct rate, in order of first appearance, each holding the net and tax sums of exactly its lines; bases add up to the net total and amounts to the tax total |
| Models.AddToGroupsStep | models.py:90-95 | one iteration of the loop keeps the breakdown specification and adds the line to both grand totals |
| Models.StepOrder | models.py:92-93 | a new rate opens a group after every group whose rate appeared earlier |
| Models.StepSums | models.py:94-95 | after one iteration each group holds the sums over exactly the lines at its rate |
| Models.BreakdownSumsToTotals | models.py:75-96 | the breakdown's bases sum to `get_total_ht` and its amounts to `get_total_tva` |
| Models.SingleRateBreakdown | models.py:87-96 | lines that share one rate make a single group that holds all of them |
| Display.Round | main.py:532-538 | `:.2f`/`:.1f` leave a value with at most that many decimals |
| Display.RoundProperties | main.py:532-538 | rounding moves a value by at most half a unit of the last decimal shown; a value that already has that many decimals is unchanged, so rounding twice is rounding once |
| Display.PrintedRowDetermines | main.py:532-538 | when prices are in cents and rates in tenths, two lines show the same row exactly when they are the same line; the last cell shows quantity times price rounded to cents |
| Display.PrintedRowCollides | main.py:532-538 | unit prices 1.001 and 1.004 show the same row, so beyond cents the row does not tell lines apart |
| Display.ArticleRowsFollowEdits | main.py:911-920 | appending lines appends their rows; removing a line removes its row and keeps the order of the others |
| Archive.EncodeCommon | main.py:764-799 | the record holds the common keys: the lower-cased label as `type`, the number, the ISO date, both parties, the lines, conditions and notes |
| Archive.Encode | main.py:764-807 | a quote also gets `validite_jours` and no due date; an invoice gets `date_echeance`, `reference_devis` and `payee`, and no validity |
| Archive.ArchiveName | main.py:810 | the file name is the lower-cased label, '_', the number and ".json" |
| Archive.ArchiveNameInjective | main.py:810 | two documents with one label get different files exactly when their numbers differ |
| Archive.DecodeEntreprise | main.py:823-824 | a company is read only from an object whose keys are fields of the class and include the required ones |
| Archive.DecodeClient | main.py:827-828 | a client is read only from an object that has `nom` and no unknown key |
| Archive.DecodeArticles | main.py:831-839 | a list of lines is read item by item; iterating a non-list gives no lines |
| Archive.DecodeKind | main.py:842-865 | the variant read matches the tag's kind, and an invoice's due date is in range |
| Archive.Decode | main.py:816-872 | a record is read only when it is an object with the common keys; the raw tag is returned; the tag "devis" reads a quote and any other tag reads an invoice |
| Archive.EntrepriseRoundTrip | main.py:767-777 | a company written and read back is the same company |
| Archive.ClientRoundTrip | main.py:778-787 | a client written and read back is the same client |
| Archive.ArticlesRoundTrip | main.py:788-795 | lines written and read back are the same lines in the same order |
| Archive.HeaderRoundTrip | main.py:764-861 | the common fields written and read back are the same |
| Archive.KindRoundTrip | main.py:802-865 | the variant reads back exactly when the tag names the document's kind, and then it is the same variant |
| Archive.DecodeEncode | main.py:764-867 | reading back an archive gives the document that was written and the lower-cased tag, exactly when the label names the document's kind |
| Form.PreferenceDefaults | main.py:947-952 | without a preference, deletion asks for confirmation and the rate field is reset to "20.0" |
| Form.CreerClient | main.py:593-604 | every client field is read stripped |
| Form.CreerClientNameEmpty | main.py:593-604 | the client read from the form has no display name exactly when its company, first-name and last-name fields are blank |
| Form.CreerClientIdempotent | main.py:593-604 | reading a client already read changes nothing |
| Form.AddArticleWith | main.py:500-554 | a blank field gives its warning, and that happens exactly when a field is blank; a line is added exactly when all fields are filled and parse; then exactly one line and its row are appended, the fields are cleared with the preferred rate, the totals are refreshed, and nothing else changes; any other outcome leaves the state as it was |
| Form.AjouterArticleAsWritten | main.py:500-554 | the handler as written crashes exactly when the fields are filled, the quantity parses, and the price or rate does not |
| Form.AjouterArticle | main.py:500-554 | the handler as intended never crashes: an input error happens exactly when the fields are filled and some number does not parse, and the state is kept |
| Form.AddKeepsConsistent | main.py:529-548 | adding keeps the list and rows aligned and the totals right, and an added line raises the totals by its own amounts |
| Form.AddAcceptsComma | main.py:518-520 | ',' and '.' in the quantity give the same outcome and the same lines |
| Form.BadPriceCrashes | main.py:518-554 | the fields "Conseil", "1", "x" crash the handler as written, while the intended handler reports an input error and keeps the state |
| Form.SupprimerArticle | main.py:556-579 | nothing happens without a selection, or when confirmation is on and not given; otherwise exactly the selected line is removed, the others keep their order, and the other fields are kept |
| Form.DeleteKeepsConsistent | main.py:571-579 | deleting keeps the list and rows aligned, and lowers the totals by exactly the removed line's amounts |
| Form.Reinitialiser | main.py:711-737 | a declined reset changes nothing; a confirmed one empties the client, the lines, the rows and the totals, and keeps the type and the entry fields |
| Form.ResetReadsBack | main.py:720-735 | after a reset the form is consistent; its number names the first read's date at the second read's time, which is the reset instant when the two reads agree; its date field reads back as the day of the third read |
| Form.ResetAcrossMidnight | main.py:720-721 | reads at 23:59:59, then 00:00:00 and 00:00:00 give a number naming 2025-01-01 00:00:00 and a date field of 02/01/2025 |
| Form.ChargerDansInterface | main.py:894-932 | loading replaces the lines, the client and the number; the type radio is "devis" exactly for the tag "devis"; the date and entry fields are untouched; the load then fails exactly when the tag is not a text |
| Form.LoadConsistent | main.py:897-931 | after loading, the list, rows and totals agree, whatever the state before |
| Form.LoadArchiveRestores | main.py:764-932 | an archive written and loaded again loads without failing and restores the document's lines, client, number and type in a consistent form |
| Pdf.LoadLogo | pdf_generator.py:119-133 | there is a logo exactly when the path is non-empty, the file exists and it loads; a failure to load gives no logo, not an error |
| Pdf.KindIgnoresCase | pdf_generator.py:123 | the SVG loader is chosen without regard to case |
| Pdf.TitleIgnoresCase | pdf_generator.py:136 | the upper-cased title does not depend on how the type was capitalised |
| Pdf.EnteteShowsDocument | pdf_generator.py:136-185 | the title stands alone without a logo and beside it otherwise; the band carries the number and a date that reads back as the issue day |
| Pdf.IssuerLines | pdf_generator.py:195-207 | the issuer column has three fixed lines plus one for each filled optional field |
| Pdf.IssuerLinesShape | pdf_generator.py:195-207 | bold name, address and "cp ville" lead; SIRET comes next when given; the e-mail closes when given; a company with only the required fields has three lines |
| Pdf.ClientLines | pdf_generator.py:210-220 | the client column has three fixed lines plus one each for company, e-mail and phone when filled |
| Pdf.ClientLinesShape | pdf_generator.py:210-220 | a client with a company shows it twice; otherwise the bold name is "prenom nom" stripped; address and "cp ville" follow the names |
| Pdf.TableauArticles | pdf_generator.py:246-282 | the article table has one row more than the document has lines |
| Pdf.TableauArticlesFaithful | pdf_generator.py:250-260 | the header row comes first, then one row per line in order; when prices are in cents and rates in tenths, two documents show the same rows exactly when they have the same lines |
| Pdf.SortByRate | pdf_generator.py:294 | `sorted` keeps the groups, as a permutation with the same tax sum |
| Pdf.SortByRateAscending | pdf_generator.py:294 | groups with distinct rates come out in strictly increasing rate, with the same rates |
| Pdf.RateRowsAppend | pdf_generator.py:294-298 | the rows of two runs of groups are the rows of each in turn, so a group's row does not depend on its neighbours |
| Pdf.TotalsRows | pdf_generator.py:289-300 | the totals table has two rows more than the breakdown has groups |
| Pdf.TotalsRowCount | pdf_generator.py:289-300 | the totals table has one row per distinct rate of the lines, plus two |
| Pdf.TotalsRowsAscending | pdf_generator.py:294-298 | the rate rows sit between the first and last rows, by strictly increasing rate, and carry exactly the lines' rates |
| Pdf.TotalsRowsAddUp | pdf_generator.py:289-300 | the table opens with the net total and closes with the gross total, and the listed taxes plus the net total make the gross total |
| Pdf.InfosVariant | pdf_generator.py:328-349 | the variant block fails exactly for a quote whose end of validity is out of range, and never holds the watermark |
| Pdf.InfosVariantContents | pdf_generator.py:328-349 | a quote's block gives its validity and an end date that reads back as that many days later; an invoice's block holds the reference line exactly when there is a reference |
| Pdf.Story | pdf_generator.py:53-113 | the story fails exactly when the quote's end of validity cannot be computed |
| Pdf.TrialStory | pdf_generator.py:104-110 | the two insertions of a trial copy put the watermark and a spacer before the untouched story |
| Pdf.StoryOrder | pdf_generator.py:72-110 | after the optional watermark and spacer come title, band, parties, article table and totals at fixed places, then the variant, then conditions and notes exactly when they are non-empty |
| Pdf.WatermarkIffTrial | pdf_generator.py:103-110 | the story holds the watermark exactly for a trial copy |
| Pdf.InvoiceIgnoresDueDateAndPaid | pdf_generator.py:338-349 | an invoice's page does not change with its due date or its paid flag |
| Export.CheckLicense | main.py:1223-1267 | it fails exactly for an activated copy without a record; the expiry notice is shown exactly for an expired key; the trial notice is shown only to a copy that is not activated |
| Export.TitleShape | main.py:1232-1267 | every title starts "myInvo - "; an activated copy names its edition, then its company exactly when one is recorded |
| Export.TrialKeyLooksUnactivated | main.py:1241-1256 | an activated trial key without a company shows the same title as a copy that is not activated |
| Export.TrialNoticeOnce | main.py:1243-1248 | a record saying the notice was shown suppresses it; otherwise it is shown |
| Export.Precheck | main.py:610-642 | no lines stops first; then an expired key blocks; then a copy that is not activated goes on only on Yes; each stop happens exactly in its case |
| Export.DocumentOf | main.py:654-677 | the document has the typed number or one generated from the two clock reads, the date read, the client read from the form, the form's lines and the company; a quote gets 30 days; an invoice is due 30 days later |
| Export.WriteOut | main.py:690-709 | the archive is always written first; the PDF follows at the chosen path exactly when the layout succeeds |
| Export.FromDate | main.py:654-709 | the proposal names the document's number; nothing is written when the dialog is cancelled; anything written is the document of the form |
| Export.AfterName | main.py:649-709 | a date the form's format refuses stops the export exactly then; otherwise the export goes on from that date |
| Export.Produce | main.py:644-709 | what follows the checks never reports a check's failure; it stops for the name exactly when the display name is blank, and for the date exactly when the name is given and the date does not parse |
| Export.GenererPdf | main.py:606-709 | no lines, an expired key, a declined trial, a blank client name and an unreadable date each stop the export exactly in their case, checked in that order; the expiry warning comes exactly for an activated key with 7 or fewer days left; nothing is written unless the export reaches the archive; the archive comes first; success means the PDF was written at the chosen path |
| Export.ProduceReachedDocument | main.py:644-688 | a proposal is shown only with a display name, a date that parses and an in-range due date, and it names the document's number |
| Export.ProduceWrites | main.py:644-699 | anything written is the document the form describes, written through the chosen path |
| Export.ExportNeedsNameAndDate | main.py:644-652 | an export reaches the save dialog only when some name field is filled and the date parses |
| Export.ExportArchiveReadsBack | main.py:690-699 | the archive an export writes has the document's file name and reads back as the form's lines, client, number, company and type, with the lower-case tag |
| Export.BlankNumberFromClock | main.py:654-656 | a typed number is kept, stripped; a blank field gets a number naming the first read's date at the second read's time, which is the export instant when the two reads agree |
| Export.PromptNames | main.py:679-688 | the proposed file is `<Label>_<numero>.pdf` in "devis" or "factures" |
| Export.ExportWatermark | main.py:698-699 | an exported PDF has the watermark exactly when the copy is not activated, and an exported quote has 30 days of validity |
| Export.ReplyMattersOnlyForTrial | main.py:618-642 | an activated copy ignores the reply; a copy that is neither activated nor expired stops on No |
| Export.ExpiredAgreesWithTitle | main.py:616-627 | the export refuses an expired key exactly when the start-up check announced it expired |
| Export.ResetFormExportsNothing | main.py:610-613 | a form just reset has nothing to export |

## Left out

- Widgets, layouts, menus, message boxes and dialogs: the user's replies,
  the selected row and the chosen path are inputs. The hand-written modal
  dialogs (main.py:1401-1589) and icon painting are left out.
- Logging and crash reports are side effects only.
- File-system I/O: the archive is an in-memory `Json` value, not text in a
  file. `json.load` and `json.dump` are not modelled. Creating folders
  and joining paths (the working folder in front of the names) are not
  modelled either.
- The licence manager's internals are not part of this model.
  `is_activated`, `is_key_expired`, `get_install_info` and
  `get_days_remaining` are inputs. `generer_pdf` asks `is_activated` a
  second time for the watermark; the model assumes it gives the same
  answer.
- Update checks, launching other programs, the guide, the licence and
  report viewers, `check_installer_key` and `get_version_info` are left
  out. They are plumbing, not logic.
- Pdf.Story: never fails on text. ReportLab's paragraph parser raises
  `ValueError` on markup it refuses, and user text goes into paragraphs:
  - a designation such as `<b>x</i>` (pdf_generator.py:255);
  - the issuer and client lines (pdf_generator.py:225-226);
  - the number (pdf_generator.py:170).

  In the program such an error comes after the archive is written
  (main.py:695-699). The `except ValueError` at main.py:704-706 spans the
  whole block from main.py:650, so it catches the error, and the message
  wrongly blames the date format. The markup grammar is not modelled.
- ReportLab and svglib rendering are left out: geometry, sizes, colours,
  styles, `doc.build` and the SVG scale factor (pdf_generator.py:125-128).
  Spacers are blocks without size.
- Numbers: the `float` parse of the quantity, the `float` values in the
  archive, and the 28-digit `Decimal` context are taken as exact. This is
  an assumption, not a proved property.
- Display.ArticleRow: the digits of `:.2f`, `:.1f` and `str(float)` are
  not computed. A cell records the value and the format. `Display.Printed`
  rounds a fixed-point cell as the format does. `str` of the quantity is
  kept as its value.
- Text.Lower: maps ASCII letters only. Python's `lower` and `upper` also
  map other letters. The labels the program uses are ASCII.
- Numbers.ParseDecimal: reads plain decimal literals with an optional sign
  and surrounding whitespace. `Decimal` and `float` also accept exponents,
  `inf`, `nan` (and `Decimal` also `sNaN`), underscores and non-ASCII
  decimal digits such as '٣'. The model refuses all of these. Infinities
  and NaNs have no `real` value.
- Numbers.LeadingLetterRejected: holds of the model's reader only.
  `Decimal` and `float` read "inf", "Infinity" and "nan" in any case, and
  texts that start with a non-ASCII decimal digit.
- Numbers.LetterRejected: holds of the model's reader only. A single
  non-ASCII decimal digit such as '٣' reads as its value in Python.
- DateText.ParseDmy: the digits are ASCII. strptime's `\d` also matches
  non-ASCII decimal digits, so Python also accepts "1٣/01/2025" and
  "01/01/٢٠٢٥"; the model refuses them.
- Archive.Decode: the fields are typed. A string field holding a
  non-string JSON value is refused, where Python would build the object
  and fail later or never.
- Archive.DecodeKind: refuses a `validite_jours` that is not a JSON
  integer and a `payee` that is not a JSON boolean. `charger_document`
  stores any value there (main.py:853, main.py:864), and loading never
  uses either field. The model's document holds a number and a flag, so
  such a record reads as refused.
- DateText.ParseIso: reads the `YYYY-MM-DD` shapes with an optional time
  to the hour, minute or second. Fractions of seconds, time zones and the
  compact forms that `fromisoformat` also accepts are left out.
- DateText.TwoReadsAcrossMidnight: states what the number names, not its
  literal text.
- Calendar.AddDays: works on the unbounded calendar. Python raises
  `OverflowError` outside years 1 to 9999; the callers check `InRange`
  and model that error.
- Preferences other than `confirmer_suppression` and `tva_defaut` have no
  effect on the core. `auto_sauvegarde` is read but not acted on.
- `charger_config_entreprise` and `sauvegarder_config_entreprise` are left
  out: the company is an input of the export.

## Findings

| source | as written | input that shows it | evidently intended | confidence | as-written member | corrected member |
|---|---|---|---|---|---|---|
| main.py:448-450 | the clock is read twice: once for the date part, once for the time part | a first read at 2025-01-01 23:59:59 and a second at 2025-01-02 00:00:00 give "20250101-000000", which names neither read; after a reset the date field then shows the next day (Form.ResetAcrossMidnight) | one clock read for the whole number, so that the number names the instant it was made at (proved as DateText.GenerateNumeroRoundTrip). The reset and the export are modelled as written, taking both reads; when the reads agree they give exactly this number (DateText.TwoReadsMix) | not executed | DateText.TwoReadsAcrossMidnight | DateText.GenerateNumero |
| main.py:518-552 | the price and the rate are parsed with `Decimal`, which raises `InvalidOperation`, not a `ValueError`; the handler catches only `ValueError` | the fields "Conseil", "1", "x" | an unreadable price or rate is reported as an input error, like an unreadable quantity | not executed | Form.BadPriceCrashes | Form.AjouterArticle |
