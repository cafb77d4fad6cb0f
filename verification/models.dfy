/** The pricing model: clients, line items, the issuing company, and quotes
    and invoices with their derived amounts. `Decimal` arithmetic is exact
    here (`real`). */
module Models {

  import opened Wrappers
  import opened Text
  import opened Calendar

  datatype Client = Client(
    nom: string, prenom: string, entreprise: string, adresse: string,
    codePostal: string, ville: string, email: string, telephone: string)

  /** `Client(nom)`: every other field defaults to "". */
  function NewClient(nom: string): (c: Client)
    ensures c.nom == nom
    ensures c.prenom == "" && c.entreprise == "" && c.adresse == "" && c.codePostal == ""
    ensures c.ville == "" && c.email == "" && c.telephone == ""
  {
    Client(nom, "", "", "", "", "", "", "")
  }

  /** `get_nom_complet`: the company when there is one, else "prenom nom"
      stripped. */
  function NomComplet(c: Client): string {
    if c.entreprise != "" then c.entreprise else Strip(c.prenom + " " + c.nom)
  }

  /** The display name is empty exactly when there is no company and the
      first and last names are blank. */
  lemma NomCompletEmptyIff(c: Client)
    ensures NomComplet(c) == "" <==> c.entreprise == "" && AllSpace(c.prenom) && AllSpace(c.nom)
  {
    StripEmptyIffAllSpace(c.prenom + " " + c.nom);
    AllSpaceJoin(c.prenom, c.nom);
  }

  /** Two texts joined by a space are blank exactly when both are. */
  lemma AllSpaceJoin(a: string, b: string)
    ensures AllSpace(a + " " + b) <==> AllSpace(a) && AllSpace(b)
  {
    var full := a + " " + b;
    assert forall k :: 0 <= k < |a| ==> full[k] == a[k];
    assert forall k :: 0 <= k < |b| ==> full[|a| + 1 + k] == b[k];
    assert full[|a|] == ' ';
    if AllSpace(a) && AllSpace(b) {
      forall k | 0 <= k < |full|
        ensures IsSpace(full[k])
      {
        if k > |a| {
          assert full[k] == b[k - |a| - 1];
        }
      }
    }
  }

  /** The two worked examples: a company wins; otherwise "Jean Dupont". */
  lemma NomCompletExamples()
    ensures NomComplet(NewClient("Dupont").(entreprise := "Acme")) == "Acme"
    ensures NomComplet(NewClient("Dupont").(prenom := "Jean")) == "Jean Dupont"
  {
    var full := "Jean" + " " + "Dupont";
    assert full == "Jean Dupont";
    assert !IsSpace(full[0]) && !IsSpace(full[|full| - 1]);
    StripKeepsFramed(full);
  }

  datatype Article = Article(designation: string, quantite: real, prixUnitaire: real, tva: real)

  /** `Article(designation, quantite, prix_unitaire)`: the rate defaults to 20.0. */
  function NewArticle(designation: string, quantite: real, prixUnitaire: real): (a: Article)
    ensures a.designation == designation && a.quantite == quantite && a.prixUnitaire == prixUnitaire
    ensures a.tva == 20.0
  {
    Article(designation, quantite, prixUnitaire, 20.0)
  }

  /** Net amount of a line: quantity times unit price. */
  function MontantHT(a: Article): real {
    a.quantite * a.prixUnitaire
  }

  /** Tax of a line: the net amount at the line's percentage rate. */
  function MontantTVA(a: Article): real {
    MontantHT(a) * (a.tva / 100.0)
  }

  /** Gross amount of a line. */
  function MontantTTC(a: Article): real {
    MontantHT(a) + MontantTVA(a)
  }

  /** The gross amount is the net amount scaled by (1 + rate/100); a zero
      rate adds nothing and the default rate adds a fifth. */
  lemma LineAmounts(a: Article)
    ensures MontantTTC(a) == a.quantite * a.prixUnitaire * (1.0 + a.tva / 100.0)
    ensures a.tva == 0.0 ==> MontantTVA(a) == 0.0 && MontantTTC(a) == MontantHT(a)
    ensures a.tva == 20.0 ==> MontantTTC(a) == MontantHT(a) * 1.2
  {
  }

  datatype Entreprise = Entreprise(
    nom: string, adresse: string, codePostal: string, ville: string,
    siret: string, tvaIntracommunautaire: string, telephone: string, email: string, logo: string)

  /** `Entreprise(nom, adresse, code_postal, ville)`: the optional fields default to "". */
  function NewEntreprise(nom: string, adresse: string, codePostal: string, ville: string): (e: Entreprise)
    ensures e.nom == nom && e.adresse == adresse && e.codePostal == codePostal && e.ville == ville
    ensures e.siret == "" && e.tvaIntracommunautaire == "" && e.telephone == "" && e.email == "" && e.logo == ""
  {
    Entreprise(nom, adresse, codePostal, ville, "", "", "", "", "")
  }

  /** The variant part: a quote's validity, or an invoice's due date,
      quote reference and paid flag. */
  datatype Kind =
    | Devis(validiteJours: int)
    | Facture(dateEcheance: DateTime, referenceDevis: string, payee: bool)

  datatype Document = Document(
    numero: string, date: DateTime, client: Client, articles: seq<Article>,
    entreprise: Entreprise, conditions: string, notes: string, kind: Kind)

  /** The values Python's `datetime` lets a document hold. */
  predicate WellFormed(d: Document) {
    InRange(d.date) && (d.kind.Facture? ==> InRange(d.kind.dateEcheance))
  }

  /** `Devis(numero, date, client, articles, entreprise)`: 30 days of
      validity, empty conditions and notes. */
  function NewDevis(numero: string, date: DateTime, client: Client, articles: seq<Article>,
                    entreprise: Entreprise): (d: Document)
    ensures d.kind == Devis(30) && d.conditions == "" && d.notes == ""
    ensures d.numero == numero && d.date == date && d.client == client
    ensures d.articles == articles && d.entreprise == entreprise
  {
    Document(numero, date, client, articles, entreprise, "", "", Devis(30))
  }

  /** `Facture(...)` with `__post_init__`: the due date is the one given,
      else 30 days after the issue date; no quote reference, not paid. */
  function NewFacture(numero: string, date: DateTime, client: Client, articles: seq<Article>,
                      entreprise: Entreprise, dateEcheance: Option<DateTime>): (d: Document)
    requires Valid(date)
    ensures d.kind.Facture? && d.kind.referenceDevis == "" && !d.kind.payee
    ensures dateEcheance.Some? ==> d.kind.dateEcheance == dateEcheance.value
    ensures dateEcheance.None? ==> Valid(d.kind.dateEcheance) && DayNumber(d.kind.dateEcheance) == DayNumber(date) + 30
    ensures dateEcheance.None? ==> SecondOfDay(d.kind.dateEcheance) == SecondOfDay(date)
    ensures d.conditions == "" && d.notes == ""
    ensures d.numero == numero && d.date == date && d.client == client
    ensures d.articles == articles && d.entreprise == entreprise
  {
    var due := match dateEcheance case Some(e) => e case None => AddDays(date, 30);
    Document(numero, date, client, articles, entreprise, "", "", Facture(due, "", false))
  }

  /** `get_date_validite`: the issue date plus the validity in days. */
  function DateValidite(d: Document): (r: DateTime)
    requires d.kind.Devis? && Valid(d.date)
    ensures Valid(r) && DayNumber(r) == DayNumber(d.date) + d.kind.validiteJours
    ensures r.hour == d.date.hour && r.minute == d.date.minute && r.second == d.date.second
  {
    AddDays(d.date, d.kind.validiteJours)
  }

  /** A quote issued on 2025-01-01 is valid until 2025-01-31, and an invoice
      issued that day without a due date is due on 2025-01-31. */
  lemma ValidityExamples(client: Client, articles: seq<Article>, e: Entreprise)
    ensures DateValidite(NewDevis("1", DateTime(2025, 1, 1, 0, 0, 0), client, articles, e))
         == DateTime(2025, 1, 31, 0, 0, 0)
    ensures NewFacture("1", DateTime(2025, 1, 1, 0, 0, 0), client, articles, e, None).kind.dateEcheance
         == DateTime(2025, 1, 31, 0, 0, 0)
  {
    AddDaysUnique(DateTime(2025, 1, 1, 0, 0, 0), 30, DateTime(2025, 1, 31, 0, 0, 0));
  }

  // ----- Totals -----

  function SumHT(arts: seq<Article>): real {
    if |arts| == 0 then 0.0 else SumHT(arts[..|arts| - 1]) + MontantHT(arts[|arts| - 1])
  }

  function SumTVA(arts: seq<Article>): real {
    if |arts| == 0 then 0.0 else SumTVA(arts[..|arts| - 1]) + MontantTVA(arts[|arts| - 1])
  }

  function SumTTC(arts: seq<Article>): real {
    if |arts| == 0 then 0.0 else SumTTC(arts[..|arts| - 1]) + MontantTTC(arts[|arts| - 1])
  }

  /** `get_total_ht`: the net amounts summed from 0. */
  function TotalHT(d: Document): real {
    SumHT(d.articles)
  }

  /** `get_total_tva`: the tax amounts summed from 0. */
  function TotalTVA(d: Document): real {
    SumTVA(d.articles)
  }

  /** `get_total_ttc`: total net plus total tax. */
  function TotalTTC(d: Document): real {
    TotalHT(d) + TotalTVA(d)
  }

  /** The document's gross total is the sum of its lines' gross amounts,
      and a document without lines totals zero. */
  lemma {:induction false} TotalTTCIsSumOfLines(arts: seq<Article>)
    ensures SumHT(arts) + SumTVA(arts) == SumTTC(arts)
  {
    if |arts| > 0 {
      TotalTTCIsSumOfLines(arts[..|arts| - 1]);
    }
  }

  lemma EmptyDocumentTotals(d: Document)
    requires d.articles == []
    ensures TotalHT(d) == 0.0 && TotalTVA(d) == 0.0 && TotalTTC(d) == 0.0
  {
  }

  /** Sums split over a concatenation. */
  lemma {:induction false} SumsAppend(a: seq<Article>, b: seq<Article>)
    ensures SumHT(a + b) == SumHT(a) + SumHT(b)
    ensures SumTVA(a + b) == SumTVA(a) + SumTVA(b)
    decreases |b|
  {
    if |b| > 0 {
      var b' := b[..|b| - 1];
      assert (a + b)[..|a + b| - 1] == a + b';
      SumsAppend(a, b');
    } else {
      assert a + b == a;
    }
  }

  /** Removing the line at `i` lowers the sums by that line's amounts. */
  lemma SumsWithout(arts: seq<Article>, i: nat)
    requires i < |arts|
    ensures SumHT(arts[..i] + arts[i + 1..]) == SumHT(arts) - MontantHT(arts[i])
    ensures SumTVA(arts[..i] + arts[i + 1..]) == SumTVA(arts) - MontantTVA(arts[i])
  {
    var pre := arts[..i];
    var post := arts[i + 1..];
    var line := [arts[i]];
    SplitAt(arts, i);
    SumsAppend(pre + line, post);
    SumsAppend(pre, line);
    SumsAppend(pre, post);
    SumsSingle(arts[i]);
  }

  lemma SplitAt<T>(s: seq<T>, i: nat)
    requires i < |s|
    ensures s == (s[..i] + [s[i]]) + s[i + 1..]
  {
  }

  /** Removing the element at `i`: the ones before stay, the ones after
      move down one place, and the contents lose exactly that element. */
  lemma RemoveAt<T>(s: seq<T>, i: nat)
    requires i < |s|
    ensures var r := s[..i] + s[i + 1..];
      && |r| == |s| - 1
      && (forall j :: 0 <= j < i ==> r[j] == s[j])
      && (forall j :: i <= j < |r| ==> r[j] == s[j + 1])
      && multiset(r) + multiset{s[i]} == multiset(s)
  {
    SplitAt(s, i);
  }

  lemma SumsSingle(a: Article)
    ensures SumHT([a]) == MontantHT(a) && SumTVA([a]) == MontantTVA(a)
  {
    assert [a][..0] == [];
  }

  // ----- Tax breakdown -----

  /** One entry of `get_tva_par_taux`: a rate with its base and tax. */
  datatype TaxGroup = TaxGroup(rate: real, base: real, montant: real)

  /** Index of the group for `rate`, or `|groups|` when there is none. */
  function RateIndex(groups: seq<TaxGroup>, rate: real): (k: nat)
    ensures k <= |groups|
    ensures forall i :: 0 <= i < k ==> groups[i].rate != rate
  {
    if |groups| == 0 then 0
    else if groups[0].rate == rate then 0
    else 1 + RateIndex(groups[1..], rate)
  }

  /** A found index holds the rate, so it is the first group with it. */
  lemma {:induction false} RateIndexFound(groups: seq<TaxGroup>, rate: real)
    ensures RateIndex(groups, rate) < |groups| ==> groups[RateIndex(groups, rate)].rate == rate
  {
    if |groups| > 0 && groups[0].rate != rate {
      RateIndexFound(groups[1..], rate);
    }
  }

  /** One iteration of the loop of `get_tva_par_taux`: a new rate opens a
      group at the end, a known rate adds to its group. */
  function AddToGroups(groups: seq<TaxGroup>, a: Article): seq<TaxGroup> {
    var k := RateIndex(groups, a.tva);
    if k == |groups| then groups + [TaxGroup(a.tva, 0.0 + MontantHT(a), 0.0 + MontantTVA(a))]
    else groups[k := TaxGroup(groups[k].rate, groups[k].base + MontantHT(a), groups[k].montant + MontantTVA(a))]
  }

  /** Index of the first line at `rate`, or `|arts|` when there is none. */
  function FirstIndex(arts: seq<Article>, rate: real): (k: nat)
    ensures k <= |arts|
    ensures forall i :: 0 <= i < k ==> arts[i].tva != rate
  {
    if |arts| == 0 then 0
    else
      var f := FirstIndex(arts[..|arts| - 1], rate);
      if f < |arts| - 1 then f
      else if arts[|arts| - 1].tva == rate then |arts| - 1
      else |arts|
  }

  /** A found index holds the rate, so it is the first line with it. */
  lemma {:induction false} FirstIndexFound(arts: seq<Article>, rate: real)
    ensures FirstIndex(arts, rate) < |arts| ==> arts[FirstIndex(arts, rate)].tva == rate
  {
    if |arts| > 0 {
      FirstIndexFound(arts[..|arts| - 1], rate);
    }
  }

  /** The lines at `rate`, in document order. */
  function WithRate(arts: seq<Article>, rate: real): seq<Article> {
    if |arts| == 0 then []
    else WithRate(arts[..|arts| - 1], rate) + (if arts[|arts| - 1].tva == rate then [arts[|arts| - 1]] else [])
  }

  /** No rate has two groups. */
  predicate DistinctRates(groups: seq<TaxGroup>) {
    forall i, j :: 0 <= i < j < |groups| ==> groups[i].rate != groups[j].rate
  }

  /** Every group's rate is the rate of some line. */
  predicate RatesOccur(groups: seq<TaxGroup>, arts: seq<Article>) {
    forall i :: 0 <= i < |groups| ==> FirstIndex(arts, groups[i].rate) < |arts|
  }

  /** Every line's rate has a group. */
  predicate RatesCovered(groups: seq<TaxGroup>, arts: seq<Article>) {
    forall k :: 0 <= k < |arts| ==> RateIndex(groups, arts[k].tva) < |groups|
  }

  /** Groups come in the order in which their rates first appear. */
  predicate FirstAppearanceOrder(groups: seq<TaxGroup>, arts: seq<Article>) {
    forall i, j :: 0 <= i < j < |groups| ==>
      FirstIndex(arts, groups[i].rate) < FirstIndex(arts, groups[j].rate)
  }

  /** Each group holds the net and tax sums of exactly the lines at its rate. */
  predicate GroupSums(groups: seq<TaxGroup>, arts: seq<Article>) {
    forall i :: 0 <= i < |groups| ==>
      groups[i].base == SumHT(WithRate(arts, groups[i].rate))
      && groups[i].montant == SumTVA(WithRate(arts, groups[i].rate))
  }

  /** What the tax breakdown of `arts` must be, stated without the loop:
      one group per distinct rate and no other, in the order in which each
      rate first appears, each holding the sums over exactly its lines. */
  predicate IsBreakdownOf(groups: seq<TaxGroup>, arts: seq<Article>) {
    && DistinctRates(groups)
    && RatesOccur(groups, arts)
    && RatesCovered(groups, arts)
    && FirstAppearanceOrder(groups, arts)
    && GroupSums(groups, arts)
  }

  function SumBases(groups: seq<TaxGroup>): real {
    if |groups| == 0 then 0.0 else SumBases(groups[..|groups| - 1]) + groups[|groups| - 1].base
  }

  function SumMontants(groups: seq<TaxGroup>): real {
    if |groups| == 0 then 0.0 else SumMontants(groups[..|groups| - 1]) + groups[|groups| - 1].montant
  }

  lemma {:induction false} SumsOfUpdate(groups: seq<TaxGroup>, k: nat, g: TaxGroup)
    requires k < |groups|
    ensures SumBases(groups[k := g]) == SumBases(groups) - groups[k].base + g.base
    ensures SumMontants(groups[k := g]) == SumMontants(groups) - groups[k].montant + g.montant
  {
    var n := |groups|;
    if k < n - 1 {
      assert groups[k := g][..n - 1] == groups[..n - 1][k := g];
      SumsOfUpdate(groups[..n - 1], k, g);
    } else {
      assert groups[k := g][..n - 1] == groups[..n - 1];
    }
  }

  /** How appending a line changes the first index of a rate and the sums
      over the lines at that rate. */
  lemma SnocFacts(arts: seq<Article>, a: Article, rate: real)
    ensures FirstIndex(arts + [a], rate)
         == if FirstIndex(arts, rate) < |arts| then FirstIndex(arts, rate)
            else if a.tva == rate then |arts| else |arts| + 1
    ensures SumHT(WithRate(arts + [a], rate))
         == SumHT(WithRate(arts, rate)) + (if a.tva == rate then MontantHT(a) else 0.0)
    ensures SumTVA(WithRate(arts + [a], rate))
         == SumTVA(WithRate(arts, rate)) + (if a.tva == rate then MontantTVA(a) else 0.0)
  {
    SplitConcat(arts, [a]);
    var tail: seq<Article> := if a.tva == rate then [a] else [];
    SumsAppend(WithRate(arts, rate), tail);
    ConcatEmpty(WithRate(arts, rate));
  }

  lemma {:induction false} WithRateAbsent(arts: seq<Article>, rate: real)
    requires FirstIndex(arts, rate) == |arts|
    ensures WithRate(arts, rate) == []
  {
    if |arts| > 0 {
      WithRateAbsent(arts[..|arts| - 1], rate);
    }
  }

  /** A rate without a group is the rate of no line so far. */
  lemma NewRateAbsent(groups: seq<TaxGroup>, arts: seq<Article>, rate: real)
    requires RatesCovered(groups, arts)
    requires RateIndex(groups, rate) == |groups|
    ensures FirstIndex(arts, rate) == |arts|
    ensures WithRate(arts, rate) == []
  {
    FirstIndexFound(arts, rate);
    WithRateAbsent(arts, rate);
  }

  lemma StepDistinct(groups: seq<TaxGroup>, a: Article)
    requires DistinctRates(groups)
    ensures DistinctRates(AddToGroups(groups, a))
  {
  }

  lemma StepCovered(groups: seq<TaxGroup>, arts: seq<Article>, a: Article)
    requires RatesCovered(groups, arts)
    ensures RatesCovered(AddToGroups(groups, a), arts + [a])
  {
    var g' := AddToGroups(groups, a);
    var arts' := arts + [a];
    forall m | 0 <= m < |arts'|
      ensures RateIndex(g', arts'[m].tva) < |g'|
    {
      var r := arts'[m].tva;
      RateIndexFound(groups, r);
      var j := RateIndex(groups, r);
      if m < |arts| {
        assert arts'[m] == arts[m];
        assert g'[j].rate == r;
      } else {
        assert g'[j].rate == r;
      }
    }
  }

  lemma StepOccur(groups: seq<TaxGroup>, arts: seq<Article>, a: Article)
    requires RatesOccur(groups, arts)
    ensures RatesOccur(AddToGroups(groups, a), arts + [a])
  {
    var g' := AddToGroups(groups, a);
    forall i | 0 <= i < |g'|
      ensures FirstIndex(arts + [a], g'[i].rate) < |arts| + 1
    {
      SnocFacts(arts, a, g'[i].rate);
      if i < |groups| {
        assert g'[i].rate == groups[i].rate;
      }
    }
  }

  lemma StepOrder(groups: seq<TaxGroup>, arts: seq<Article>, a: Article)
    requires RatesOccur(groups, arts) && RatesCovered(groups, arts)
    requires FirstAppearanceOrder(groups, arts)
    ensures FirstAppearanceOrder(AddToGroups(groups, a), arts + [a])
  {
    var g' := AddToGroups(groups, a);
    var arts' := arts + [a];
    forall i | 0 <= i < |groups|
      ensures FirstIndex(arts', g'[i].rate) == FirstIndex(arts, groups[i].rate)
    {
      assert g'[i].rate == groups[i].rate;
      SnocFacts(arts, a, groups[i].rate);
    }
    if RateIndex(groups, a.tva) == |groups| {
      NewRateAbsent(groups, arts, a.tva);
      SnocFacts(arts, a, a.tva);
      assert FirstIndex(arts', g'[|groups|].rate) == |arts|;
    }
  }

  lemma StepSums(groups: seq<TaxGroup>, arts: seq<Article>, a: Article)
    requires DistinctRates(groups) && RatesCovered(groups, arts)
    requires GroupSums(groups, arts)
    ensures GroupSums(AddToGroups(groups, a), arts + [a])
  {
    var g' := AddToGroups(groups, a);
    var k := RateIndex(groups, a.tva);
    RateIndexFound(groups, a.tva);
    if k == |groups| {
      NewRateAbsent(groups, arts, a.tva);
    }
    forall i | 0 <= i < |g'|
      ensures g'[i].base == SumHT(WithRate(arts + [a], g'[i].rate))
      ensures g'[i].montant == SumTVA(WithRate(arts + [a], g'[i].rate))
    {
      SnocFacts(arts, a, g'[i].rate);
      if i != k {
        assert g'[i] == groups[i];
        assert groups[i].rate != a.tva;
      }
    }
  }

  lemma StepTotals(groups: seq<TaxGroup>, a: Article)
    ensures SumBases(AddToGroups(groups, a)) == SumBases(groups) + MontantHT(a)
    ensures SumMontants(AddToGroups(groups, a)) == SumMontants(groups) + MontantTVA(a)
  {
    var k := RateIndex(groups, a.tva);
    var g' := AddToGroups(groups, a);
    if k == |groups| {
      assert g'[..|groups|] == groups;
    } else {
      SumsOfUpdate(groups, k, g'[k]);
    }
  }

  /** One loop iteration keeps the breakdown specification and adds the
      line to the two grand totals. */
  lemma AddToGroupsStep(groups: seq<TaxGroup>, arts: seq<Article>, a: Article)
    requires IsBreakdownOf(groups, arts)
    ensures IsBreakdownOf(AddToGroups(groups, a), arts + [a])
    ensures SumBases(AddToGroups(groups, a)) == SumBases(groups) + MontantHT(a)
    ensures SumMontants(AddToGroups(groups, a)) == SumMontants(groups) + MontantTVA(a)
  {
    StepDistinct(groups, a);
    StepCovered(groups, arts, a);
    StepOccur(groups, arts, a);
    StepOrder(groups, arts, a);
    StepSums(groups, arts, a);
    StepTotals(groups, a);
  }

  /** `get_tva_par_taux`: the loop over the lines, as a left fold. */
  function TvaParTaux(arts: seq<Article>): (groups: seq<TaxGroup>)
    ensures IsBreakdownOf(groups, arts)
    ensures SumBases(groups) == SumHT(arts)
    ensures SumMontants(groups) == SumTVA(arts)
  {
    if |arts| == 0 then []
    else
      var init := arts[..|arts| - 1];
      var last := arts[|arts| - 1];
      var g := TvaParTaux(init);
      SplitLast(arts);
      AddToGroupsStep(g, init, last);
      AddToGroups(g, last)
  }

  /** The bases of the breakdown add up to the document's net total and its
      amounts to the document's tax total. */
  lemma BreakdownSumsToTotals(d: Document)
    ensures SumBases(TvaParTaux(d.articles)) == TotalHT(d)
    ensures SumMontants(TvaParTaux(d.articles)) == TotalTVA(d)
  {
  }

  /** Lines that all share one rate make a single group holding all of
      them. */
  lemma {:induction false} SingleRateBreakdown(arts: seq<Article>, rate: real)
    requires |arts| > 0
    requires forall k :: 0 <= k < |arts| ==> arts[k].tva == rate
    ensures TvaParTaux(arts) == [TaxGroup(rate, SumHT(arts), SumTVA(arts))]
  {
    var g := TvaParTaux(arts);
    forall i | 0 <= i < |g|
      ensures g[i].rate == rate
    {
      FirstIndexFound(arts, g[i].rate);
    }
    assert RateIndex(g, arts[0].tva) < |g|;
    assert |g| == 1 by {
      if |g| > 1 {
        assert false;
      }
    }
    WithRateAll(arts, rate);
  }

  lemma {:induction false} WithRateAll(arts: seq<Article>, rate: real)
    requires forall k :: 0 <= k < |arts| ==> arts[k].tva == rate
    ensures WithRate(arts, rate) == arts
  {
    if |arts| > 0 {
      WithRateAll(arts[..|arts| - 1], rate);
      SplitLast(arts);
    }
  }
}
