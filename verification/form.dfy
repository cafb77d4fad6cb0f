/** The main window's working state and its transitions: adding and
    deleting lines, refreshing the totals, resetting the form, reading the
    client fields and loading an archived document. Widgets are records
    of their texts; the user's replies and selections are inputs. */
module Form {

  import opened Wrappers
  import opened Text
  import opened Calendar
  import opened DateText
  import opened Numbers
  import opened Models
  import opened Display
  import opened Archive

  /** The answer to a Yes/No question box. */
  datatype Reply = Yes | No

  /** The user preferences; a key missing from the file is `None`. */
  datatype Preferences = Preferences(
    autoSauvegarde: Option<bool>, confirmerSuppression: Option<bool>, tvaDefaut: Option<string>)

  /** `charger_preferences` when there is no preferences file. */
  function DefaultPreferences(): (p: Preferences)
    ensures p.autoSauvegarde == Some(true) && p.confirmerSuppression == Some(true)
    ensures p.tvaDefaut == Some("20.0")
  {
    Preferences(Some(true), Some(true), Some("20.0"))
  }

  /** `preferences.get("confirmer_suppression", True)`. */
  function ConfirmDeletion(p: Preferences): bool {
    p.confirmerSuppression.GetOr(true)
  }

  /** `preferences.get("tva_defaut", "20.0")`. */
  function DefaultRateText(p: Preferences): string {
    p.tvaDefaut.GetOr("20.0")
  }

  /** Whether the preferences come from the file or not, a missing key
      reads as its default, so deletion asks for confirmation and new
      lines are pre-filled at 20.0 unless the user chose otherwise. */
  lemma PreferenceDefaults(p: Preferences)
    ensures p.confirmerSuppression.None? ==> ConfirmDeletion(p)
    ensures p.tvaDefaut.None? ==> DefaultRateText(p) == "20.0"
    ensures ConfirmDeletion(DefaultPreferences()) && DefaultRateText(DefaultPreferences()) == "20.0"
  {
  }

  /** The texts of the four line-entry fields. */
  datatype Inputs = Inputs(designation: string, quantite: string, prix: string, tva: string)

  /** The three amounts shown under the list. */
  datatype Totals = Totals(ht: real, tva: real, ttc: real)

  datatype FormState = FormState(
    articles: seq<Article>,     // `articles_list`
    rows: seq<seq<Cell>>,       // the rows of `articles_tree`
    client: Client,             // the texts of the eight client fields
    numero: string,
    date: string,
    isDevis: bool,              // the "Devis" radio button
    inputs: Inputs,
    totals: Totals)

  /** `mettre_a_jour_totaux`: net and tax summed from 0, gross their sum. */
  function TotalsOf(arts: seq<Article>): (t: Totals)
    ensures t.ttc == SumTTC(arts)
  {
    TotalTTCIsSumOfLines(arts);
    Totals(SumHT(arts), SumTVA(arts), SumHT(arts) + SumTVA(arts))
  }

  /** The list and the displayed rows have the same length and agree index
      by index, and the totals are those of the list. */
  ghost predicate Consistent(st: FormState) {
    && |st.rows| == |st.articles|
    && (forall i :: 0 <= i < |st.articles| ==> st.rows[i] == ArticleRow(st.articles[i]))
    && st.totals == TotalsOf(st.articles)
  }

  /** `creer_client`: each field stripped. */
  function CreerClient(f: Client): (c: Client)
    ensures c.nom == Strip(f.nom) && c.prenom == Strip(f.prenom) && c.entreprise == Strip(f.entreprise)
    ensures c.adresse == Strip(f.adresse) && c.codePostal == Strip(f.codePostal) && c.ville == Strip(f.ville)
    ensures c.email == Strip(f.email) && c.telephone == Strip(f.telephone)
  {
    Client(Strip(f.nom), Strip(f.prenom), Strip(f.entreprise), Strip(f.adresse),
           Strip(f.codePostal), Strip(f.ville), Strip(f.email), Strip(f.telephone))
  }

  /** The client read from the form has no display name exactly when the
      company, first-name and last-name fields are all blank. */
  lemma CreerClientNameEmpty(f: Client)
    ensures NomComplet(CreerClient(f)) == "" <==> AllSpace(f.entreprise) && AllSpace(f.prenom) && AllSpace(f.nom)
  {
    NomCompletEmptyIff(CreerClient(f));
    StripEmptyIffAllSpace(f.entreprise);
    AllSpaceStrip(f.prenom);
    AllSpaceStrip(f.nom);
  }

  /** Reading the form twice changes nothing: a client shown in the form
      and read back is the same client. */
  lemma CreerClientIdempotent(f: Client)
    ensures CreerClient(CreerClient(f)) == CreerClient(f)
  {
    StripIdempotent(f.nom);
    StripIdempotent(f.prenom);
    StripIdempotent(f.entreprise);
    StripIdempotent(f.adresse);
    StripIdempotent(f.codePostal);
    StripIdempotent(f.ville);
    StripIdempotent(f.email);
    StripIdempotent(f.telephone);
  }

  // ----- Adding a line -----

  /** What `ajouter_article` reports: success, one of the three warnings,
      a handled input error, or an exception that escapes the handler. */
  datatype AddOutcome = Added | MissingDesignation | MissingQuantity | MissingPrice | InputError | Crash

  datatype AddResult = AddResult(outcome: AddOutcome, state: FormState)

  /** The three numbers of a new line, when all three parse. */
  predicate FieldsParse(inp: Inputs) {
    && ParseUserNumber(Strip(inp.quantite)).Some?
    && ParseUserNumber(Strip(inp.prix)).Some?
    && ParseUserNumber(inp.tva).Some?
  }

  /** The three fields the handler checks for blanks are all filled. */
  predicate Filled(inp: Inputs) {
    Strip(inp.designation) != "" && Strip(inp.quantite) != "" && Strip(inp.prix) != ""
  }

  /** The line the fields describe. */
  function NewLine(inp: Inputs): Article
    requires FieldsParse(inp)
  {
    Article(Strip(inp.designation), ParseUserNumber(Strip(inp.quantite)).value,
            ParseUserNumber(Strip(inp.prix)).value, ParseUserNumber(inp.tva).value)
  }

  /** The steps of `ajouter_article`, with the outcome of a failed
      `Decimal(...)` as a parameter: `float(...)` raises `ValueError`,
      which the handler catches, while `Decimal(...)` raises
      `InvalidOperation`, which it does not. */
  function AddArticleWith(st: FormState, prefs: Preferences, decimalFailure: AddOutcome): (r: AddResult)
    requires decimalFailure == InputError || decimalFailure == Crash
    ensures r.outcome != Added ==> r.state == st
    ensures !Filled(st.inputs) <==>
      r.outcome == MissingDesignation || r.outcome == MissingQuantity || r.outcome == MissingPrice
    ensures Filled(st.inputs) && ParseUserNumber(Strip(st.inputs.quantite)).None? ==> r.outcome == InputError
    ensures Filled(st.inputs) && ParseUserNumber(Strip(st.inputs.quantite)).Some? && !FieldsParse(st.inputs) ==>
      r.outcome == decimalFailure
    ensures r.outcome == Added <==> Filled(st.inputs) && FieldsParse(st.inputs)
    ensures r.outcome == Added ==>
      && r.state.articles == st.articles + [NewLine(st.inputs)]
      && r.state.rows == st.rows + [ArticleRow(NewLine(st.inputs))]
      && r.state.inputs == Inputs("", "", "", DefaultRateText(prefs))
      && r.state.totals == TotalsOf(r.state.articles)
      && r.state.client == st.client && r.state.numero == st.numero
      && r.state.date == st.date && r.state.isDevis == st.isDevis
  {
    var inp := st.inputs;
    if Strip(inp.designation) == "" then AddResult(MissingDesignation, st)
    else if Strip(inp.quantite) == "" then AddResult(MissingQuantity, st)
    else if Strip(inp.prix) == "" then AddResult(MissingPrice, st)
    else if ParseUserNumber(Strip(inp.quantite)).None? then AddResult(InputError, st)
    else if ParseUserNumber(Strip(inp.prix)).None? || ParseUserNumber(inp.tva).None? then
      AddResult(decimalFailure, st)
    else
      var a := NewLine(inp);
      var arts := st.articles + [a];
      AddResult(Added, st.(articles := arts, rows := st.rows + [ArticleRow(a)],
                           inputs := Inputs("", "", "", DefaultRateText(prefs)),
                           totals := TotalsOf(arts)))
  }

  /** `ajouter_article` as written: a bad price or rate escapes the
      `except ValueError` handler. */
  function AjouterArticleAsWritten(st: FormState, prefs: Preferences): (r: AddResult)
    ensures r.outcome == Crash <==>
      Filled(st.inputs) && ParseUserNumber(Strip(st.inputs.quantite)).Some?
      && (ParseUserNumber(Strip(st.inputs.prix)).None? || ParseUserNumber(st.inputs.tva).None?)
    ensures r.outcome != Added ==> r.state == st
  {
    AddArticleWith(st, prefs, Crash)
  }

  /** `ajouter_article` as intended: every unreadable number is reported as
      an input error and leaves the state alone. */
  function AjouterArticle(st: FormState, prefs: Preferences): (r: AddResult)
    ensures r.outcome != Crash
    ensures r.outcome == InputError <==> Filled(st.inputs) && !FieldsParse(st.inputs)
    ensures r.outcome != Added ==> r.state == st
  {
    AddArticleWith(st, prefs, InputError)
  }

  /** Adding a line keeps the list and the rows aligned, appends exactly
      one line, and raises the totals by that line's amounts. */
  lemma AddKeepsConsistent(st: FormState, prefs: Preferences)
    requires Consistent(st)
    ensures Consistent(AjouterArticle(st, prefs).state)
    ensures AjouterArticle(st, prefs).outcome == Added ==>
      var a := NewLine(st.inputs);
      && |AjouterArticle(st, prefs).state.articles| == |st.articles| + 1
      && AjouterArticle(st, prefs).state.totals.ht == st.totals.ht + MontantHT(a)
      && AjouterArticle(st, prefs).state.totals.tva == st.totals.tva + MontantTVA(a)
  {
    var r := AjouterArticle(st, prefs);
    if r.outcome == Added {
      var a := NewLine(st.inputs);
      SumsAppend(st.articles, [a]);
      SumsSingle(a);
      AppendKeepsRowsAligned(st.articles, st.rows, a);
    }
  }

  /** Appending a line and its row to aligned sequences keeps them
      aligned. */
  lemma AppendKeepsRowsAligned(arts: seq<Article>, rows: seq<seq<Cell>>, a: Article)
    requires |rows| == |arts|
    requires forall k :: 0 <= k < |arts| ==> rows[k] == ArticleRow(arts[k])
    ensures var arts' := arts + [a];
      var rows' := rows + [ArticleRow(a)];
      |rows'| == |arts'| && forall k :: 0 <= k < |arts'| ==> rows'[k] == ArticleRow(arts'[k])
  {
    var arts' := arts + [a];
    var rows' := rows + [ArticleRow(a)];
    forall k | 0 <= k < |arts'|
      ensures rows'[k] == ArticleRow(arts'[k])
    {
      if k < |arts| {
        assert rows'[k] == rows[k] && arts'[k] == arts[k];
      }
    }
  }

  /** ',' and '.' are interchangeable in the quantity field: the line is
      added or refused alike, and an added line is the same. */
  lemma AddAcceptsComma(st: FormState, prefs: Preferences, whole: string, frac: string)
    requires AllDigits(whole) && AllDigits(frac) && |whole| > 0
    ensures var withComma := AjouterArticle(st.(inputs := st.inputs.(quantite := whole + "," + frac)), prefs);
      var withDot := AjouterArticle(st.(inputs := st.inputs.(quantite := whole + "." + frac)), prefs);
      && (withComma.outcome == Added <==> withDot.outcome == Added)
      && withComma.state.articles == withDot.state.articles
  {
    CommaIsDecimalSeparator(whole, frac);
    FramedDigits(whole, frac, ',');
    FramedDigits(whole, frac, '.');
    assert whole + "," + frac == whole + [','] + frac;
    assert whole + "." + frac == whole + ['.'] + frac;
  }

  /** A number written `whole<sep>frac` needs no stripping. */
  lemma FramedDigits(whole: string, frac: string, sep: char)
    requires AllDigits(whole) && AllDigits(frac) && |whole| > 0
    requires sep == ',' || sep == '.'
    ensures Strip(whole + [sep] + frac) == whole + [sep] + frac
  {
    var t := whole + [sep] + frac;
    assert t[0] == whole[0];
    if |frac| > 0 {
      assert t[|t| - 1] == frac[|frac| - 1];
    }
    StripKeepsFramed(t);
  }

  /** An input that shows the difference: a price that is not a number
      makes the handler as written crash, where the intended handler
      reports it. */
  lemma BadPriceCrashes(st: FormState, prefs: Preferences)
    requires st.inputs == Inputs("Conseil", "1", "x", "20")
    ensures AjouterArticleAsWritten(st, prefs).outcome == Crash
    ensures AjouterArticle(st, prefs).outcome == InputError
    ensures AjouterArticle(st, prefs).state == st
  {
    StripConseil();
    StripOne();
    StripX();
    OneReads();
    XRejected();
  }

  // ----- Deleting a line -----

  datatype DeleteOutcome = Deleted | NoSelection | NotConfirmed

  datatype DeleteResult = DeleteResult(outcome: DeleteOutcome, state: FormState)

  /** `supprimer_article`: `selected` is the index of the selected row, if
      any; `reply` is the answer to the confirmation, asked only when the
      preference is on. */
  function SupprimerArticle(st: FormState, prefs: Preferences, selected: Option<nat>, reply: Reply): (r: DeleteResult)
    requires selected.Some? ==> selected.value < |st.articles| && selected.value < |st.rows|
    ensures r.outcome == NoSelection <==> selected.None?
    ensures r.outcome == NotConfirmed <==> selected.Some? && ConfirmDeletion(prefs) && reply != Yes
    ensures r.outcome != Deleted ==> r.state == st
    ensures r.outcome == Deleted ==>
      var i := selected.value;
      && |r.state.articles| == |st.articles| - 1
      && (forall j :: 0 <= j < i ==> r.state.articles[j] == st.articles[j])
      && (forall j :: i <= j < |r.state.articles| ==> r.state.articles[j] == st.articles[j + 1])
      && multiset(r.state.articles) + multiset{st.articles[i]} == multiset(st.articles)
      && r.state.client == st.client && r.state.numero == st.numero && r.state.date == st.date
      && r.state.isDevis == st.isDevis && r.state.inputs == st.inputs
  {
    match selected
    case None => DeleteResult(NoSelection, st)
    case Some(i) =>
      if ConfirmDeletion(prefs) && reply != Yes then DeleteResult(NotConfirmed, st)
      else
        var arts := st.articles[..i] + st.articles[i + 1..];
        RemoveAt(st.articles, i);
        DeleteResult(Deleted, st.(articles := arts, rows := st.rows[..i] + st.rows[i + 1..],
                                  totals := TotalsOf(arts)))
  }

  /** Removing the same index from two aligned sequences keeps them
      aligned. */
  lemma RemoveKeepsRowsAligned(arts: seq<Article>, rows: seq<seq<Cell>>, i: nat)
    requires |rows| == |arts| && i < |arts|
    requires forall k :: 0 <= k < |arts| ==> rows[k] == ArticleRow(arts[k])
    ensures var arts' := arts[..i] + arts[i + 1..];
      var rows' := rows[..i] + rows[i + 1..];
      |rows'| == |arts'| && forall k :: 0 <= k < |arts'| ==> rows'[k] == ArticleRow(arts'[k])
  {
    var arts' := arts[..i] + arts[i + 1..];
    var rows' := rows[..i] + rows[i + 1..];
    forall k | 0 <= k < |arts'|
      ensures rows'[k] == ArticleRow(arts'[k])
    {
      if k < i {
        assert rows'[k] == rows[k] && arts'[k] == arts[k];
      } else {
        assert rows'[k] == rows[k + 1] && arts'[k] == arts[k + 1];
      }
    }
  }

  /** Deleting keeps the list and the rows aligned and lowers the totals
      by exactly the removed line's amounts. */
  lemma DeleteKeepsConsistent(st: FormState, prefs: Preferences, selected: Option<nat>, reply: Reply)
    requires Consistent(st)
    requires selected.Some? ==> selected.value < |st.articles|
    ensures Consistent(SupprimerArticle(st, prefs, selected, reply).state)
    ensures SupprimerArticle(st, prefs, selected, reply).outcome == Deleted ==>
      var a := st.articles[selected.value];
      && SupprimerArticle(st, prefs, selected, reply).state.totals.ht == st.totals.ht - MontantHT(a)
      && SupprimerArticle(st, prefs, selected, reply).state.totals.tva == st.totals.tva - MontantTVA(a)
  {
    if selected.Some? {
      SumsWithout(st.articles, selected.value);
      RemoveKeepsRowsAligned(st.articles, st.rows, selected.value);
    }
  }

  // ----- Resetting -----

  /** `reinitialiser` after the confirmation: a fresh number from two clock
      reads (`generer_numero_document`), then today's date from a third
      read, empty client fields and an empty list. The document type and
      the line-entry fields are kept. */
  function Reinitialiser(st: FormState, reply: Reply, clock: ClockReads, today: DateTime): (r: FormState)
    requires ReadsInRange(clock) && InRange(today)
    ensures reply != Yes ==> r == st
    ensures reply == Yes ==>
      && r.articles == [] && r.rows == [] && r.totals == Totals(0.0, 0.0, 0.0)
      && r.client == NewClient("")
      && r.isDevis == st.isDevis && r.inputs == st.inputs
  {
    if reply != Yes then st
    else st.(numero := GenerateNumeroTwoReads(clock.first, clock.second), date := FormatDmy(today),
             client := NewClient(""), articles := [], rows := [], totals := TotalsOf([]))
  }

  /** After a reset the form is consistent, its number names the first
      read's date at the second read's time (the instant of the reset when
      both reads agree), and its date field is accepted by the export as
      the day of the third read. */
  lemma ResetReadsBack(st: FormState, clock: ClockReads, today: DateTime)
    requires ReadsInRange(clock) && InRange(today)
    ensures Consistent(Reinitialiser(st, Yes, clock, today))
    ensures NumeroInstant(Reinitialiser(st, Yes, clock, today).numero) == Some(MixedInstant(clock.first, clock.second))
    ensures clock.first == clock.second ==>
      NumeroInstant(Reinitialiser(st, Yes, clock, today).numero) == Some(clock.first)
    ensures ParseDmy(Reinitialiser(st, Yes, clock, today).date) == Some(Midnight(today))
  {
    TwoReadsMix(clock.first, clock.second);
    DmyRoundTrip(today);
  }

  /** A reset across midnight: reads at 23:59:59 and then at midnight give
      the number of the first day's start, while the date field shows the
      next day. */
  lemma ResetAcrossMidnight(st: FormState)
    ensures var clock := ClockReads(DateTime(2025, 1, 1, 23, 59, 59), DateTime(2025, 1, 2, 0, 0, 0));
      var today := DateTime(2025, 1, 2, 0, 0, 0);
      var r := Reinitialiser(st, Yes, clock, today);
      && NumeroInstant(r.numero) == Some(DateTime(2025, 1, 1, 0, 0, 0))
      && ParseDmy(r.date) == Some(DateTime(2025, 1, 2, 0, 0, 0))
  {
    var clock := ClockReads(DateTime(2025, 1, 1, 23, 59, 59), DateTime(2025, 1, 2, 0, 0, 0));
    var today := DateTime(2025, 1, 2, 0, 0, 0);
    assert MixedInstant(clock.first, clock.second) == DateTime(2025, 1, 1, 0, 0, 0);
    assert Midnight(today) == today;
    ResetReadsBack(st, clock, today);
  }

  // ----- Loading an archived document -----

  /** How `charger_document_dans_interface` ends: normally, or with the
      exception `type_doc.capitalize()` raises when the record's `type` is
      not a text. Nothing catches it, so the program stops there. */
  datatype LoadOutcome = Loaded | LoadCrash

  datatype LoadResult = LoadResult(outcome: LoadOutcome, state: FormState)

  /** `charger_document_dans_interface`: the list, the rows, the client
      fields, the number and the type radio are replaced and the totals
      refreshed; the date field and the line-entry fields are not touched.
      Only then is the tag capitalised for the log and the message, which
      fails on a tag that is not a text. */
  function ChargerDansInterface(st: FormState, d: Document, tag: Json): (r: LoadResult)
    ensures r.outcome == LoadCrash <==> !tag.JStr?
    ensures r.state.articles == d.articles && r.state.client == d.client && r.state.numero == d.numero
    ensures r.state.isDevis <==> tag == JStr("devis")
    ensures r.state.date == st.date && r.state.inputs == st.inputs
  {
    var loaded := st.(articles := d.articles, rows := ArticleRows(d.articles), client := d.client,
                      numero := d.numero, isDevis := tag == JStr("devis"), totals := TotalsOf(d.articles));
    LoadResult(if tag.JStr? then Loaded else LoadCrash, loaded)
  }

  /** Loading leaves the form consistent with the loaded lines, whatever
      state it was in. */
  lemma LoadConsistent(st: FormState, d: Document, tag: Json)
    ensures Consistent(ChargerDansInterface(st, d, tag).state)
  {
  }

  /** An archive written from a document and opened again loads without
      failing and puts back the document's lines, client, number and type
      in the form. */
  lemma LoadArchiveRestores(st: FormState, d: Document, typeDoc: string)
    requires WellFormed(d)
    requires d.kind.Devis? <==> Lower(typeDoc) == "devis"
    ensures Decode(Encode(d, typeDoc)).Some?
    ensures var (d', tag) := Decode(Encode(d, typeDoc)).value;
      var r := ChargerDansInterface(st, d', tag);
      r.outcome == Loaded
      && r.state.articles == d.articles && r.state.client == d.client && r.state.numero == d.numero
      && (r.state.isDevis <==> d.kind.Devis?) && Consistent(r.state)
  {
    DecodeEncode(d, typeDoc);
  }
}
