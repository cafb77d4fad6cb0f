/** The export command and the licence title: the checks `generer_pdf`
    makes before writing anything, in order, what it then writes, and the
    window title chosen at start-up. The licence manager is not modelled:
    its answers are inputs, as are the user's reply, the clock, the path
    chosen in the save dialog and what the file system says of the logo. */
module Export {

  import opened Wrappers
  import opened Text
  import opened Calendar
  import opened DateText
  import opened Models
  import opened Archive
  import opened Form
  import opened Pdf

  // ----- Licence -----

  /** The installation record, as far as the window reads it: the key type,
      the company, whether the trial notice was shown, and how many other
      keys the record holds. */
  datatype InstallInfo = InstallInfo(
    keyType: Option<string>, company: Option<string>, trialShown: Option<bool>, others: nat)

  /** What the licence manager answers: activation, the installation record
      (`None` when there is none), its verdict on an expired key, and the
      days left (-1 for a key without end). */
  datatype Licence = Licence(activated: bool, info: Option<InstallInfo>, expired: bool, daysRemaining: int)

  /** Python truthiness of the record: absent and empty records are false. */
  predicate HasInfo(info: Option<InstallInfo>) {
    match info
    case None => false
    case Some(i) => i.keyType.Some? || i.company.Some? || i.trialShown.Some? || i.others > 0
  }

  /** `install_info.get('key_type', 'standard')`. */
  function KeyType(i: InstallInfo): string {
    i.keyType.GetOr("standard")
  }

  /** A key that is not activated and that the manager calls expired. */
  predicate Blocked(l: Licence) {
    !l.activated && HasInfo(l.info) && l.expired
  }

  /** The edition named in the title of an activated copy. */
  function VersionName(keyType: string): (name: string)
    ensures keyType == "trial" ==> name == "Version d'essai"
    ensures keyType == "premium" ==> name == "Version Premium"
    ensures keyType != "trial" && keyType != "premium" ==> name == "Version Standard"
  {
    if keyType == "trial" then "Version d'essai"
    else if keyType == "premium" then "Version Premium"
    else "Version Standard"
  }

  /** The message box shown at start-up, if any. */
  datatype Notice = NoNotice | ExpiredNotice(keyType: string) | TrialNotice

  datatype Startup = Startup(title: string, notice: Notice)

  const Prefix: string := "myInvo - "

  /** The title after the program's name: the expired key, the trial, or
      the edition of an activated copy followed by its company. */
  function Headline(l: Licence): string
    requires !l.activated || l.info.Some?
  {
    if !l.activated then
      if Blocked(l) then "Licence " + KeyType(l.info.value) + " expirée" else "Version d'essai"
    else
      var company := Strip(l.info.value.company.GetOr(""));
      var version := VersionName(KeyType(l.info.value));
      if company != "" then version + " - " + company else version
  }

  /** `check_license`. An activated copy without an installation record
      makes the method fail (`None`): it calls `.get` on `None`. */
  function CheckLicense(l: Licence): (r: Option<Startup>)
    ensures r.None? <==> l.activated && l.info.None?
    ensures r.Some? ==> (r.value.notice.ExpiredNotice? <==> Blocked(l))
    ensures r.Some? && r.value.notice == TrialNotice ==> !l.activated
  {
    if l.activated && l.info.None? then None
    else
      var notice :=
        if l.activated then NoNotice
        else if Blocked(l) then ExpiredNotice(KeyType(l.info.value))
        else if !HasInfo(l.info) || l.info.value.trialShown != Some(true) then TrialNotice
        else NoNotice;
      Some(Startup(Prefix + Headline(l), notice))
  }

  /** Every title names the program first; an activated copy names its
      edition, followed by the company exactly when one is recorded. */
  lemma TitleShape(l: Licence)
    requires CheckLicense(l).Some?
    ensures var t := CheckLicense(l).value.title;
      |t| >= |Prefix| && t[..|Prefix|] == Prefix
    ensures l.activated ==>
      var i := l.info.value;
      var version := VersionName(KeyType(i));
      var company := Strip(i.company.GetOr(""));
      CheckLicense(l).value.title[|Prefix|..] == version + (if company != "" then " - " + company else "")
  {
    SplitConcat(Prefix, Headline(l));
    if l.activated {
      ActivatedHeadline(l);
    }
  }

  lemma ActivatedHeadline(l: Licence)
    requires l.activated && l.info.Some?
    ensures var i := l.info.value;
      var company := Strip(i.company.GetOr(""));
      Headline(l) == VersionName(KeyType(i)) + (if company != "" then " - " + company else "")
  {
    var i := l.info.value;
    var company := Strip(i.company.GetOr(""));
    var version := VersionName(KeyType(i));
    if company == "" {
      ConcatEmpty(version);
    } else {
      ConcatAssoc(version, " - ", company);
    }
  }

  /** A copy activated with a trial key and no company shows the same title
      as a copy that is not activated at all. */
  lemma TrialKeyLooksUnactivated(l: Licence, m: Licence)
    requires l.activated && l.info.Some? && l.info.value.keyType == Some("trial")
    requires Strip(l.info.value.company.GetOr("")) == ""
    requires !m.activated && !Blocked(m)
    ensures CheckLicense(l).value.title == CheckLicense(m).value.title
  {
  }

  /** The trial notice appears once: a record that says it was shown, for a
      copy that is neither activated nor expired, suppresses it. */
  lemma TrialNoticeOnce(l: Licence)
    requires !l.activated && !Blocked(l)
    ensures CheckLicense(l).value.notice == (if HasInfo(l.info) && l.info.value.trialShown == Some(true)
                                             then NoNotice else TrialNotice)
  {
  }

  // ----- The export command -----

  datatype ExportOutcome =
    | NoArticles
    | LicenceExpired(keyType: string)
    | TrialDeclined
    | NoClientName
    | BadDate
    | Failed          // an exception caught by the generic handler
    | SaveCancelled
    | Exported

  /** What the command writes, in order. */
  datatype Effect =
    | WriteArchive(name: string, record: Json)
    | WritePdf(path: string, story: seq<Block>)

  /** The save dialog's proposal: the default folder and file name. */
  datatype Prompt = Prompt(folder: string, fileName: string)

  datatype ExportResult = ExportResult(
    outcome: ExportOutcome, expiryWarning: bool, prompt: Option<Prompt>, effects: seq<Effect>)

  /** Everything the command reads besides the form and the answer to the
      trial question: the issuing company, the licence, the two clock reads
      a blank number field costs, the path chosen in the dialog ("" when
      cancelled) and the logo file. */
  datatype Env = Env(
    entreprise: Entreprise, licence: Licence, clock: ClockReads, chosen: string, logo: LogoProbe)

  /** The label of the document type. */
  function Label(isDevis: bool): string {
    if isDevis then "Devis" else "Facture"
  }

  /** The number the document gets: the field stripped, or a fresh one
      from `generer_numero_document`. */
  function NumeroOf(st: FormState, clock: ClockReads): (n: string)
    requires ReadsInRange(clock)
    ensures n != ""
  {
    if Strip(st.numero) != "" then Strip(st.numero) else GenerateNumeroTwoReads(clock.first, clock.second)
  }

  /** The document the form describes, once the date has been read. */
  function DocumentOf(st: FormState, env: Env, date: DateTime): (d: Document)
    requires ReadsInRange(env.clock) && InRange(date)
    requires !st.isDevis ==> InRange(AddDays(date, 30))
    ensures WellFormed(d)
    ensures d.numero == NumeroOf(st, env.clock) && d.date == date && d.client == CreerClient(st.client)
    ensures d.articles == st.articles && d.entreprise == env.entreprise
    ensures d.kind.Devis? <==> st.isDevis
    ensures st.isDevis ==> d.kind == Devis(30)
    ensures !st.isDevis ==> d.kind == Facture(AddDays(date, 30), "", false)
  {
    var numero := NumeroOf(st, env.clock);
    var client := CreerClient(st.client);
    if st.isDevis then NewDevis(numero, date, client, st.articles, env.entreprise)
    else NewFacture(numero, date, client, st.articles, env.entreprise, None)
  }

  /** The checks made before the form is read: an empty list, an expired
      key, and the trial question (asked only of a copy that is not
      activated and not expired). `None` lets the export go on. */
  function Precheck(count: nat, lic: Licence, reply: Reply): (r: Option<ExportOutcome>)
    ensures r == Some(NoArticles) <==> count == 0
    ensures (r.Some? && r.value.LicenceExpired?) <==> count > 0 && Blocked(lic)
    ensures r == Some(TrialDeclined) <==> count > 0 && !lic.activated && !Blocked(lic) && reply != Yes
    ensures r.None? <==> count > 0 && !Blocked(lic) && (lic.activated || reply == Yes)
  {
    if count == 0 then Some(NoArticles)
    else if Blocked(lic) then Some(LicenceExpired(KeyType(lic.info.value)))
    else if !lic.activated && reply != Yes then Some(TrialDeclined)
    else None
  }

  /** The expiry reminder of an activated key with seven days or fewer left. */
  predicate Warned(lic: Licence) {
    lic.activated && lic.daysRemaining != -1 && lic.daysRemaining <= 7
  }

  /** What any run of the command leaves behind: nothing is written
      unless the export got as far as the archive; the archive is always
      written first, after a proposal was shown; the export succeeded
      exactly when the PDF was written too, at the chosen path. */
  predicate WellShaped(r: ExportResult, chosen: string) {
    && (r.outcome != Exported && r.outcome != Failed ==> r.effects == [])
    && (r.effects != [] ==> r.effects[0].WriteArchive? && r.prompt.Some?)
    && (r.outcome == Exported <==> |r.effects| == 2)
    && (|r.effects| == 2 ==> r.effects[1].WritePdf? && r.effects[1].path == chosen)
  }

  /** Writing, once the path is chosen: the archive first, then the PDF;
      a failure while laying out the PDF leaves the archive written. */
  function WriteOut(doc: Document, typeDoc: string, env: Env, warned: bool, prompt: Prompt): (r: ExportResult)
    requires WellFormed(doc)
    ensures r.outcome == Exported || r.outcome == Failed
    ensures r.expiryWarning == warned && r.prompt == Some(prompt)
    ensures 1 <= |r.effects| <= 2
    ensures r.effects[0] == WriteArchive(ArchiveName(typeDoc, doc.numero), Encode(doc, typeDoc))
    ensures r.outcome == Exported <==> Story(doc, typeDoc, !env.licence.activated, env.logo).Some?
    ensures r.outcome == Exported <==> |r.effects| == 2
    ensures |r.effects| == 2 ==>
      r.effects[1] == WritePdf(env.chosen, Story(doc, typeDoc, !env.licence.activated, env.logo).value)
    ensures WellShaped(r, env.chosen)
  {
    var archive := WriteArchive(ArchiveName(typeDoc, doc.numero), Encode(doc, typeDoc));
    match Story(doc, typeDoc, !env.licence.activated, env.logo)
    case None => ExportResult(Failed, warned, Some(prompt), [archive])
    case Some(story) => ExportResult(Exported, warned, Some(prompt), [archive, WritePdf(env.chosen, story)])
  }

  /** The save dialog's proposal for a document numbered `numero`. */
  function PromptOf(isDevis: bool, numero: string): Prompt {
    Prompt(if isDevis then "devis" else "factures", Label(isDevis) + "_" + numero + ".pdf")
  }

  /** The steps once the date is read: the invoice's due date (whose
      overflow the generic handler reports), the document, the save dialog,
      then the writing. */
  function FromDate(st: FormState, env: Env, warned: bool, date: DateTime): (r: ExportResult)
    requires ReadsInRange(env.clock) && InRange(date)
    ensures r.expiryWarning == warned
    ensures r.outcome == Exported || r.outcome == Failed || r.outcome == SaveCancelled
    ensures WellShaped(r, env.chosen)
    ensures r.prompt.Some? ==> (!st.isDevis ==> InRange(AddDays(date, 30)))
    ensures r.prompt.Some? ==> r.prompt == Some(PromptOf(st.isDevis, NumeroOf(st, env.clock)))
    ensures r.effects != [] ==> env.chosen != "" && r.prompt.Some?
    ensures r.effects != [] ==>
      r == WriteOut(DocumentOf(st, env, date), Label(st.isDevis), env, warned, PromptOf(st.isDevis, NumeroOf(st, env.clock)))
  {
    if !st.isDevis && !InRange(AddDays(date, 30)) then ExportResult(Failed, warned, None, [])
    else
      var doc := DocumentOf(st, env, date);
      var prompt := PromptOf(st.isDevis, doc.numero);
      if env.chosen == "" then ExportResult(SaveCancelled, warned, Some(prompt), [])
      else WriteOut(doc, Label(st.isDevis), env, warned, prompt)
  }

  /** The steps after the checks: the client name, the date, then the
      document. */
  function Produce(st: FormState, env: Env, warned: bool): (r: ExportResult)
    requires ReadsInRange(env.clock)
    ensures r.outcome != NoArticles && !r.outcome.LicenceExpired? && r.outcome != TrialDeclined
    ensures r.outcome == NoClientName <==> NomComplet(CreerClient(st.client)) == ""
    ensures r.outcome == BadDate <==> NomComplet(CreerClient(st.client)) != "" && ParseDmy(st.date).None?
    ensures r.expiryWarning == warned
    ensures WellShaped(r, env.chosen)
  {
    if NomComplet(CreerClient(st.client)) == "" then ExportResult(NoClientName, warned, None, [])
    else AfterName(st, env, warned)
  }

  /** The steps once the client name is accepted: the date, then the
      document. */
  function AfterName(st: FormState, env: Env, warned: bool): (r: ExportResult)
    requires ReadsInRange(env.clock)
    ensures r.outcome != NoArticles && !r.outcome.LicenceExpired? && r.outcome != TrialDeclined
    ensures r.outcome != NoClientName
    ensures r.expiryWarning == warned
    ensures WellShaped(r, env.chosen)
    ensures r.outcome == BadDate <==> ParseDmy(st.date).None?
    ensures ParseDmy(st.date).Some? ==> r == FromDate(st, env, warned, ParseDmy(st.date).value)
  {
    match ParseDmy(st.date)
    case None => ExportResult(BadDate, warned, None, [])
    case Some(date) => FromDate(st, env, warned, date)
  }

  /** `generer_pdf`: the checks in the order the code makes them, then the
      archive, then the PDF. */
  function GenererPdf(st: FormState, env: Env, reply: Reply): (r: ExportResult)
    requires ReadsInRange(env.clock)
    ensures r.outcome == NoArticles <==> |st.articles| == 0
    ensures r.outcome.LicenceExpired? <==> |st.articles| > 0 && Blocked(env.licence)
    ensures r.outcome == TrialDeclined <==>
      |st.articles| > 0 && !env.licence.activated && !Blocked(env.licence) && reply != Yes
    ensures r.outcome == NoClientName <==>
      Precheck(|st.articles|, env.licence, reply).None? && NomComplet(CreerClient(st.client)) == ""
    ensures r.outcome == BadDate <==>
      Precheck(|st.articles|, env.licence, reply).None? && NomComplet(CreerClient(st.client)) != ""
      && ParseDmy(st.date).None?
    ensures r.expiryWarning <==> |st.articles| > 0 && Warned(env.licence)
    ensures WellShaped(r, env.chosen)
  {
    match Precheck(|st.articles|, env.licence, reply)
    case Some(stop) => ExportResult(stop, false, None, [])
    case None => Produce(st, env, Warned(env.licence))
  }

  lemma LowerLabels()
    ensures Lower("Devis") == "devis" && Lower("Facture") == "facture"
  {
  }

  /** When something was proposed or written, the name and the date passed
      their checks and the proposal names the document's number. */
  lemma ProduceReachedDocument(st: FormState, env: Env, warned: bool)
    requires ReadsInRange(env.clock)
    requires Produce(st, env, warned).prompt.Some?
    ensures NomComplet(CreerClient(st.client)) != ""
    ensures ParseDmy(st.date).Some?
    ensures !st.isDevis ==> InRange(AddDays(ParseDmy(st.date).value, 30))
    ensures Produce(st, env, warned).prompt == Some(PromptOf(st.isDevis, NumeroOf(st, env.clock)))
  {
    assert NomComplet(CreerClient(st.client)) != "";
    assert ParseDmy(st.date).Some?;
  }

  /** When something was written, it is the document the form describes. */
  lemma ProduceWrites(st: FormState, env: Env, warned: bool)
    requires ReadsInRange(env.clock)
    requires Produce(st, env, warned).effects != []
    ensures ParseDmy(st.date).Some?
    ensures !st.isDevis ==> InRange(AddDays(ParseDmy(st.date).value, 30))
    ensures env.chosen != ""
    ensures Produce(st, env, warned) ==
      WriteOut(DocumentOf(st, env, ParseDmy(st.date).value), Label(st.isDevis), env, warned,
               PromptOf(st.isDevis, NumeroOf(st, env.clock)))
  {
    assert NomComplet(CreerClient(st.client)) != "";
    assert ParseDmy(st.date).Some?;
  }

  /** An export reaches the document only with a non-blank client name and
      a date the form's format accepts. */
  lemma ExportNeedsNameAndDate(st: FormState, env: Env, reply: Reply)
    requires ReadsInRange(env.clock)
    requires GenererPdf(st, env, reply).prompt.Some?
    ensures !(AllSpace(st.client.entreprise) && AllSpace(st.client.prenom) && AllSpace(st.client.nom))
    ensures ParseDmy(st.date).Some?
  {
    ProduceReachedDocument(st, env, Warned(env.licence));
    CreerClientNameEmpty(st.client);
  }

  /** The archive written by an export reads back as the exported
      document: the form's lines in order, the client read from the form,
      the chosen type, and the number typed or generated. */
  lemma ExportArchiveReadsBack(st: FormState, env: Env, reply: Reply)
    requires ReadsInRange(env.clock)
    requires GenererPdf(st, env, reply).effects != []
    ensures var w := GenererPdf(st, env, reply).effects[0];
      && w.name == ArchiveName(Label(st.isDevis), NumeroOf(st, env.clock))
      && Decode(w.record).Some?
      && var d := Decode(w.record).value.0;
      && var tag := Decode(w.record).value.1;
      && d.articles == st.articles && d.client == CreerClient(st.client)
      && d.numero == NumeroOf(st, env.clock) && d.entreprise == env.entreprise
      && (d.kind.Devis? <==> st.isDevis)
      && tag == JStr(if st.isDevis then "devis" else "facture")
  {
    ExportArchiveWritten(st, env, reply);
    DocumentArchiveReadsBack(st, env, ParseDmy(st.date).value);
  }

  /** What an export writes first: the archive of the document the form
      describes. */
  lemma ExportArchiveWritten(st: FormState, env: Env, reply: Reply)
    requires ReadsInRange(env.clock)
    requires GenererPdf(st, env, reply).effects != []
    ensures ParseDmy(st.date).Some?
    ensures !st.isDevis ==> InRange(AddDays(ParseDmy(st.date).value, 30))
    ensures var doc := DocumentOf(st, env, ParseDmy(st.date).value);
      GenererPdf(st, env, reply).effects[0] == WriteArchive(ArchiveName(Label(st.isDevis), doc.numero), Encode(doc, Label(st.isDevis)))
  {
    var warned := Warned(env.licence);
    ExportGoesOn(st, env, reply);
    ProduceWrites(st, env, warned);
  }

  /** Anything written passed the checks made before the form is read. */
  lemma ExportGoesOn(st: FormState, env: Env, reply: Reply)
    requires ReadsInRange(env.clock)
    requires GenererPdf(st, env, reply).effects != []
    ensures GenererPdf(st, env, reply) == Produce(st, env, Warned(env.licence))
  {
  }

  /** The archive of the document the form describes reads back as that
      document, under the lower-case label. */
  lemma DocumentArchiveReadsBack(st: FormState, env: Env, date: DateTime)
    requires ReadsInRange(env.clock) && InRange(date)
    requires !st.isDevis ==> InRange(AddDays(date, 30))
    ensures var doc := DocumentOf(st, env, date);
      && Decode(Encode(doc, Label(st.isDevis))) == Some((doc, JStr(if st.isDevis then "devis" else "facture")))
      && doc.articles == st.articles && doc.client == CreerClient(st.client)
      && doc.numero == NumeroOf(st, env.clock) && doc.entreprise == env.entreprise
  {
    var doc := DocumentOf(st, env, date);
    LowerLabels();
    DecodeEncode(doc, Label(st.isDevis));
  }

  /** A blank number field gets a number from the clock. It names the
      first read's date at the second read's time, which is the instant of
      the export when both reads agree; a typed number is kept, stripped. */
  lemma BlankNumberFromClock(st: FormState, clock: ClockReads)
    requires ReadsInRange(clock)
    ensures Strip(st.numero) == "" ==> NumeroInstant(NumeroOf(st, clock)) == Some(MixedInstant(clock.first, clock.second))
    ensures Strip(st.numero) == "" && clock.first == clock.second ==> NumeroInstant(NumeroOf(st, clock)) == Some(clock.first)
    ensures Strip(st.numero) != "" ==> NumeroOf(st, clock) == Strip(st.numero)
  {
    TwoReadsMix(clock.first, clock.second);
  }

  /** The file name the dialog proposes and the archive's name share the
      number, and a quote proposes its own folder. */
  lemma PromptNames(st: FormState, env: Env, reply: Reply)
    requires ReadsInRange(env.clock)
    requires GenererPdf(st, env, reply).prompt.Some?
    ensures var p := GenererPdf(st, env, reply).prompt.value;
      && p.fileName == Label(st.isDevis) + "_" + NumeroOf(st, env.clock) + ".pdf"
      && p.folder == (if st.isDevis then "devis" else "factures")
  {
    ProduceReachedDocument(st, env, Warned(env.licence));
  }

  /** The PDF of an export carries the trial watermark exactly when the copy
      is not activated, and a quote is exported with 30 days of validity. */
  lemma ExportWatermark(st: FormState, env: Env, reply: Reply)
    requires ReadsInRange(env.clock)
    requires GenererPdf(st, env, reply).outcome == Exported
    ensures Watermark in GenererPdf(st, env, reply).effects[1].story <==> !env.licence.activated
    ensures st.isDevis ==> DocumentOf(st, env, ParseDmy(st.date).value).kind == Devis(30)
  {
    ExportGoesOn(st, env, reply);
    ProduceWrites(st, env, Warned(env.licence));
    var doc := DocumentOf(st, env, ParseDmy(st.date).value);
    WatermarkIffTrial(doc, Label(st.isDevis), !env.licence.activated, env.logo);
  }

  /** An activated copy never asks the trial question, so the reply has no
      effect; a copy that is not activated proceeds only on Yes. */
  lemma ReplyMattersOnlyForTrial(st: FormState, env: Env)
    requires ReadsInRange(env.clock)
    ensures env.licence.activated ==> GenererPdf(st, env, Yes) == GenererPdf(st, env, No)
    ensures !env.licence.activated && |st.articles| > 0 && !Blocked(env.licence) ==>
      GenererPdf(st, env, No).outcome == TrialDeclined
  {
  }

  /** The export refuses an expired key exactly when the start-up check
      announced it expired. */
  lemma ExpiredAgreesWithTitle(st: FormState, env: Env, reply: Reply)
    requires ReadsInRange(env.clock) && |st.articles| > 0
    requires CheckLicense(env.licence).Some?
    ensures GenererPdf(st, env, reply).outcome.LicenceExpired? <==>
      CheckLicense(env.licence).value.notice.ExpiredNotice?
  {
  }

  /** A form just reset has nothing to export. */
  lemma ResetFormExportsNothing(st: FormState, env: Env, reply: Reply, clock: ClockReads, today: DateTime)
    requires ReadsInRange(env.clock) && ReadsInRange(clock) && InRange(today)
    ensures GenererPdf(Reinitialiser(st, Yes, clock, today), env, reply).outcome == NoArticles
  {
  }
}
