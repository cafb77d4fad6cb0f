/** The layout of a generated quote or invoice: which blocks the page
    "story" holds, in which order, and the lines and cells of each.
    Geometry, fonts, colours and the drawing itself are not modelled. */
module Pdf {

  import opened Wrappers
  import opened Text
  import opened Calendar
  import opened DateText
  import opened Models
  import opened Display

  // ----- Header -----

  datatype LogoKind = Svg | Raster

  /** What the file system answers about the logo path: whether the file
      is there, and whether the drawing or image is built from it without
      an exception. */
  datatype LogoProbe = LogoProbe(present: bool, loads: bool)

  datatype Logo = Logo(path: string, kind: LogoKind)

  predicate EndsWith(s: string, suffix: string) {
    |suffix| <= |s| && s[|s| - |suffix|..] == suffix
  }

  /** `logo.lower().endswith(".svg")` picks the vector loader. */
  function KindOf(path: string): LogoKind {
    if EndsWith(Lower(path), ".svg") then Svg else Raster
  }

  /** The logo of the header: none when the path is empty or missing, and
      none (never an error) when loading it fails. */
  function LoadLogo(path: string, probe: LogoProbe): (r: Option<Logo>)
    ensures r.Some? <==> path != "" && probe.present && probe.loads
    ensures r.Some? ==> r.value.path == path
  {
    if path != "" && probe.present then
      if probe.loads then Some(Logo(path, KindOf(path))) else None
    else None
  }

  lemma LowerOfUpper(s: string)
    ensures Lower(Upper(s)) == Lower(s)
  {
  }

  lemma UpperOfLower(s: string)
    ensures Upper(Lower(s)) == Upper(s)
  {
  }

  /** The loader is chosen without regard to case: `LOGO.SVG` and
      `logo.svg` are both drawings. */
  lemma KindIgnoresCase(path: string)
    ensures KindOf(Upper(path)) == KindOf(path)
    ensures KindOf(Lower(path)) == KindOf(path)
  {
    LowerOfUpper(path);
    assert Lower(Lower(path)) == Lower(path);
  }

  /** The bold upper-cased document type. */
  function TitleText(typeDoc: string): (t: string)
    ensures |t| == |typeDoc| + 7
  {
    "<b>" + Upper(typeDoc) + "</b>"
  }

  /** The title does not depend on how the type was capitalised. */
  lemma TitleIgnoresCase(typeDoc: string)
    ensures TitleText(Lower(typeDoc)) == TitleText(typeDoc)
  {
    UpperOfLower(typeDoc);
  }

  datatype Block =
    | Watermark                                     // the trial notice
    | Spacer
    | Title(text: string)
    | HeaderTable(logo: Logo, title: string)        // logo beside the title
    | InfoBand(numero: string, date: string)
    | Parties(issuer: seq<string>, client: seq<string>)
    | ArticleTable(rows: seq<seq<Cell>>)            // header row first
    | TotalsTable(lines: seq<TotalsRow>)
    | ValidityLine(days: int, until: string)
    | ReferenceLine(reference: string)
    | Heading(text: string)
    | Para(text: string)

  /** `_creer_entete`: the title, beside the logo when there is one, then
      the band with the number and the date as dd/mm/yyyy. */
  function Entete(d: Document, typeDoc: string, logo: Option<Logo>): (blocks: seq<Block>)
    requires InRange(d.date)
    ensures |blocks| == 4 && Watermark !in blocks
  {
    var head := match logo
      case Some(l) => HeaderTable(l, TitleText(typeDoc))
      case None => Title(TitleText(typeDoc));
    [head, Spacer, InfoBand(d.numero, FormatDmy(d.date)), Spacer]
  }

  /** The band carries the document's own day: read back, it is the issue
      date at midnight; and the title is the one the type asks for. */
  lemma EnteteShowsDocument(d: Document, typeDoc: string, logo: Option<Logo>)
    requires InRange(d.date)
    ensures Entete(d, typeDoc, logo)[2].InfoBand? && Entete(d, typeDoc, logo)[2].numero == d.numero
    ensures ParseDmy(Entete(d, typeDoc, logo)[2].date) == Some(Midnight(d.date))
    ensures logo.None? ==> Entete(d, typeDoc, logo)[0] == Title(TitleText(typeDoc))
    ensures logo.Some? ==> Entete(d, typeDoc, logo)[0] == HeaderTable(logo.value, TitleText(typeDoc))
  {
    DmyRoundTrip(d.date);
  }

  // ----- The two parties -----

  /** A labelled line, present only when its text is not empty. */
  function Optional(prefix: string, text: string): (r: seq<string>)
    ensures |r| == (if text == "" then 0 else 1)
    ensures text != "" ==> r[0] == prefix + text
  {
    if text == "" then [] else [prefix + text]
  }

  /** One for a filled-in text, zero for an empty one. */
  function Present(text: string): nat {
    if text == "" then 0 else 1
  }

  /** The issuer's column: bold name, address, "cp ville", then SIRET, VAT
      number, phone and e-mail, each only when filled in. */
  function IssuerLines(e: Entreprise): (lines: seq<string>)
    ensures |lines| == 3 + Present(e.siret) + Present(e.tvaIntracommunautaire) + Present(e.telephone) + Present(e.email)
  {
    ["<b>" + e.nom + "</b>", e.adresse, e.codePostal + " " + e.ville]
    + Optional("SIRET: ", e.siret) + Optional("TVA: ", e.tvaIntracommunautaire)
    + Optional("Tél: ", e.telephone) + Optional("Email: ", e.email)
  }

  /** The three fixed lines always lead, the e-mail (when given) always
      closes, and a company with only the required fields has three lines. */
  lemma IssuerLinesShape(e: Entreprise)
    ensures IssuerLines(e)[..3] == ["<b>" + e.nom + "</b>", e.adresse, e.codePostal + " " + e.ville]
    ensures e.email != "" ==> IssuerLines(e)[|IssuerLines(e)| - 1] == "Email: " + e.email
    ensures e.siret != "" ==> IssuerLines(e)[3] == "SIRET: " + e.siret
    ensures IssuerLines(NewEntreprise(e.nom, e.adresse, e.codePostal, e.ville)) == IssuerLines(e)[..3]
  {
  }

  /** The client's column: bold display name, the company again when there
      is one, address, "cp ville", then e-mail and phone when filled in. */
  function ClientLines(c: Client): (lines: seq<string>)
    ensures |lines| == 3 + Present(c.entreprise) + Present(c.email) + Present(c.telephone)
  {
    ["<b>" + NomComplet(c) + "</b>"] + (if c.entreprise != "" then [c.entreprise] else [])
    + [c.adresse, c.codePostal + " " + c.ville]
    + Optional("Email: ", c.email) + Optional("Tél: ", c.telephone)
  }

  /** A client with a company shows it twice, bold as the name and plain
      below; otherwise the bold name is "prenom nom". The address follows
      the names in both cases. */
  lemma ClientLinesShape(c: Client)
    ensures c.entreprise != "" ==> ClientLines(c)[..2] == ["<b>" + c.entreprise + "</b>", c.entreprise]
    ensures c.entreprise == "" ==> ClientLines(c)[0] == "<b>" + Strip(c.prenom + " " + c.nom) + "</b>"
    ensures var k := if c.entreprise != "" then 2 else 1;
      ClientLines(c)[k] == c.adresse && ClientLines(c)[k + 1] == c.codePostal + " " + c.ville
  {
    var head := ["<b>" + NomComplet(c) + "</b>"] + (if c.entreprise != "" then [c.entreprise] else []);
    var mid := head + [c.adresse, c.codePostal + " " + c.ville];
    var l := ClientLines(c);
    assert l == (mid + Optional("Email: ", c.email)) + Optional("Tél: ", c.telephone);
    assert forall i :: 0 <= i < |mid| ==> l[i] == mid[i];
    if c.entreprise != "" {
      assert l[..2] == head;
    }
  }

  /** `_creer_infos_parties`: the two columns side by side. */
  function InfosParties(d: Document): (blocks: seq<Block>)
    ensures blocks == [Parties(IssuerLines(d.entreprise), ClientLines(d.client)), Spacer]
  {
    [Parties(IssuerLines(d.entreprise), ClientLines(d.client)), Spacer]
  }

  // ----- The lines -----

  /** The header row of the article table. */
  function ArticleHeader(): (row: seq<Cell>)
    ensures |row| == 5
  {
    [Text("Désignation"), Text("Qté"), Text("Prix U. HT"), Text("TVA"), Text("Total HT")]
  }

  /** `_creer_tableau_articles`: the header row, then one row per line. */
  function TableauArticles(d: Document): (blocks: seq<Block>)
    ensures |blocks| == 2 && blocks[0].ArticleTable? && blocks[1] == Spacer && Watermark !in blocks
    ensures |blocks[0].rows| == |d.articles| + 1
  {
    [ArticleTable([ArticleHeader()] + ArticleRows(d.articles)), Spacer]
  }

  /** Every line's unit price is in cents and its rate in tenths of a
      percent. */
  predicate InCents(arts: seq<Article>) {
    forall i :: 0 <= i < |arts| ==> HasDecimals(arts[i].prixUnitaire, 2) && HasDecimals(arts[i].tva, 1)
  }

  /** The table lists every line in document order, five cells each. When
      prices are in cents and rates in tenths, what it shows tells the
      lines apart: two documents show the same rows exactly when they have
      the same lines. */
  lemma TableauArticlesFaithful(d: Document, e: Document)
    ensures TableauArticles(d)[0].rows[0] == ArticleHeader()
    ensures forall i :: 0 <= i < |d.articles| ==> TableauArticles(d)[0].rows[i + 1] == ArticleRow(d.articles[i])
    ensures InCents(d.articles) && InCents(e.articles) ==>
      ((|d.articles| == |e.articles|
        && forall i :: 0 <= i < |d.articles| ==> PrintedRow(d.articles[i]) == PrintedRow(e.articles[i]))
       <==> d.articles == e.articles)
  {
    if InCents(d.articles) && InCents(e.articles) && |d.articles| == |e.articles|
       && forall i :: 0 <= i < |d.articles| ==> PrintedRow(d.articles[i]) == PrintedRow(e.articles[i])
    {
      forall i | 0 <= i < |d.articles|
        ensures d.articles[i] == e.articles[i]
      {
        PrintedRowDetermines(d.articles[i], e.articles[i]);
      }
    }
  }

  // ----- Totals -----

  /** A row of the totals table: the caption cells and the amount cells. */
  datatype TotalsRow = TotalsRow(caption: seq<Cell>, amount: seq<Cell>)

  /** `TVA <rate:.1f>% sur <base:.2f> €:` and the tax. */
  function RateRow(g: TaxGroup): TotalsRow {
    TotalsRow([Text("TVA "), Fixed(g.rate, 1, "% sur "), Fixed(g.base, 2, " €:")], [Fixed(g.montant, 2, " €")])
  }

  /** The rates the groups carry. */
  function RateSet(gs: seq<TaxGroup>): set<real> {
    set g | g in gs :: g.rate
  }

  /** Strictly increasing rates. */
  predicate Ascending(gs: seq<TaxGroup>) {
    forall i, j :: 0 <= i < j < |gs| ==> gs[i].rate < gs[j].rate
  }

  /** Every rate of `gs` is above `x`. */
  predicate Above(x: real, gs: seq<TaxGroup>) {
    forall i :: 0 <= i < |gs| ==> x < gs[i].rate
  }

  lemma {:induction false} SumMontantsCons(g: TaxGroup, gs: seq<TaxGroup>)
    ensures SumMontants([g] + gs) == g.montant + SumMontants(gs)
    decreases |gs|
  {
    if |gs| > 0 {
      var t := [g] + gs;
      assert t[..|t| - 1] == [g] + gs[..|gs| - 1];
      SumMontantsCons(g, gs[..|gs| - 1]);
    } else {
      assert [g] + gs == [g];
      assert [g][..0] == [];
    }
  }

  /** One step of the sort: `g` placed before the first larger rate. */
  function InsertByRate(g: TaxGroup, gs: seq<TaxGroup>): (r: seq<TaxGroup>)
    ensures |r| == |gs| + 1
    ensures multiset(r) == multiset(gs) + multiset{g}
    ensures SumMontants(r) == SumMontants(gs) + g.montant
  {
    if |gs| == 0 then
      SumMontantsCons(g, []);
      [g]
    else if g.rate < gs[0].rate then
      SumMontantsCons(g, gs);
      [g] + gs
    else
      var rest := InsertByRate(g, gs[1..]);
      assert gs == [gs[0]] + gs[1..];
      SumMontantsCons(gs[0], rest);
      SumMontantsCons(gs[0], gs[1..]);
      [gs[0]] + rest
  }

  lemma AscendingTail(gs: seq<TaxGroup>)
    requires |gs| > 0 && Ascending(gs)
    ensures Ascending(gs[1..]) && Above(gs[0].rate, gs[1..])
  {
    var tail := gs[1..];
    forall i, j | 0 <= i < j < |tail|
      ensures tail[i].rate < tail[j].rate
    {
      assert tail[i] == gs[i + 1] && tail[j] == gs[j + 1];
    }
    forall i | 0 <= i < |tail|
      ensures gs[0].rate < tail[i].rate
    {
      assert tail[i] == gs[i + 1];
    }
  }

  lemma AscendingCons(g: TaxGroup, gs: seq<TaxGroup>)
    requires Ascending(gs) && Above(g.rate, gs)
    ensures Ascending([g] + gs)
  {
    var r := [g] + gs;
    forall i, j | 0 <= i < j < |r|
      ensures r[i].rate < r[j].rate
    {
      assert r[j] == gs[j - 1];
      if i > 0 {
        assert r[i] == gs[i - 1];
      }
    }
  }

  /** A rate above all of `gs` and below `g` stays below after inserting `g`. */
  lemma AboveInsert(x: real, g: TaxGroup, gs: seq<TaxGroup>)
    requires Above(x, gs) && x < g.rate
    ensures Above(x, InsertByRate(g, gs))
  {
    var r := InsertByRate(g, gs);
    forall i | 0 <= i < |r|
      ensures x < r[i].rate
    {
      assert r[i] in multiset(r);
      if r[i] != g {
        assert r[i] in multiset(gs);
        var k :| 0 <= k < |gs| && gs[k] == r[i];
      }
    }
  }

  /** Inserting a new rate into increasing rates keeps them increasing. */
  lemma {:induction false} InsertKeepsAscending(g: TaxGroup, gs: seq<TaxGroup>)
    requires Ascending(gs) && g.rate !in RateSet(gs)
    ensures Ascending(InsertByRate(g, gs))
    decreases |gs|
  {
    if |gs| == 0 {
    } else if g.rate < gs[0].rate {
      forall i | 0 <= i < |gs|
        ensures g.rate < gs[i].rate
      {
        if i > 0 {
          assert gs[0].rate < gs[i].rate;
        }
      }
      AscendingCons(g, gs);
    } else {
      var tail := gs[1..];
      assert gs[0] in gs;
      assert g.rate != gs[0].rate;
      AscendingTail(gs);
      assert g.rate !in RateSet(tail) by {
        forall x | x in tail
          ensures x in gs
        {
        }
      }
      InsertKeepsAscending(g, tail);
      AboveInsert(gs[0].rate, g, tail);
      AscendingCons(gs[0], InsertByRate(g, tail));
    }
  }

  /** `sorted(tva_par_taux.items())`: the groups by increasing rate. */
  function SortByRate(gs: seq<TaxGroup>): (r: seq<TaxGroup>)
    ensures |r| == |gs|
    ensures multiset(r) == multiset(gs)
    ensures SumMontants(r) == SumMontants(gs)
  {
    if |gs| == 0 then []
    else
      assert gs == [gs[0]] + gs[1..];
      SumMontantsCons(gs[0], gs[1..]);
      InsertByRate(gs[0], SortByRate(gs[1..]))
  }

  /** Sequences with the same elements carry the same rates. */
  lemma RateSetOfPermutation(a: seq<TaxGroup>, b: seq<TaxGroup>)
    requires multiset(a) == multiset(b)
    ensures RateSet(a) == RateSet(b)
  {
    forall x | x in a
      ensures x in b
    {
      assert x in multiset(a);
    }
    forall x | x in b
      ensures x in a
    {
      assert x in multiset(b);
    }
  }

  lemma DistinctTail(gs: seq<TaxGroup>)
    requires |gs| > 0 && DistinctRates(gs)
    ensures DistinctRates(gs[1..]) && gs[0].rate !in RateSet(gs[1..])
  {
    var tail := gs[1..];
    forall i, j | 0 <= i < j < |tail|
      ensures tail[i].rate != tail[j].rate
    {
      assert tail[i] == gs[i + 1] && tail[j] == gs[j + 1];
    }
    forall x | x in tail
      ensures x.rate != gs[0].rate
    {
      var k :| 0 <= k < |tail| && tail[k] == x;
      assert gs[k + 1] == x;
    }
  }

  /** Groups with distinct rates come out strictly increasing, with the
      same rates. */
  lemma {:induction false} SortByRateAscending(gs: seq<TaxGroup>)
    requires DistinctRates(gs)
    ensures Ascending(SortByRate(gs))
    ensures RateSet(SortByRate(gs)) == RateSet(gs)
    decreases |gs|
  {
    RateSetOfPermutation(SortByRate(gs), gs);
    if |gs| > 0 {
      var tail := gs[1..];
      DistinctTail(gs);
      SortByRateAscending(tail);
      InsertKeepsAscending(gs[0], SortByRate(tail));
    }
  }

  /** One row per group, in the groups' order. */
  function RateRows(gs: seq<TaxGroup>): (rows: seq<TotalsRow>)
    ensures |rows| == |gs|
    ensures forall i :: 0 <= i < |gs| ==> rows[i] == RateRow(gs[i])
  {
    seq(|gs|, i requires 0 <= i < |gs| => RateRow(gs[i]))
  }

  /** The rows of two runs of groups are the rows of each, one after the
      other, so a group's row does not depend on its neighbours. */
  lemma RateRowsAppend(gs: seq<TaxGroup>, hs: seq<TaxGroup>)
    ensures RateRows(gs + hs) == RateRows(gs) + RateRows(hs)
  {
    var l := RateRows(gs + hs);
    var r := RateRows(gs) + RateRows(hs);
    assert |l| == |r|;
    forall k | 0 <= k < |l|
      ensures l[k] == r[k]
    {
      if k < |gs| {
        assert (gs + hs)[k] == gs[k];
      } else {
        assert (gs + hs)[k] == hs[k - |gs|];
      }
    }
  }

  /** `_creer_totaux`: net total, one row per rate by increasing rate,
      then the gross total in bold. */
  function TotalsRows(d: Document): (rows: seq<TotalsRow>)
    ensures |rows| == |TvaParTaux(d.articles)| + 2
  {
    [TotalsRow([Text("Total HT:")], [Fixed(TotalHT(d), 2, " €")])]
    + RateRows(SortByRate(TvaParTaux(d.articles)))
    + [TotalsRow([Text("<b>Total TTC:</b>")], [Text("<b>"), Fixed(TotalTTC(d), 2, " €</b>")])]
  }

  /** The lines' rates, without repetition. */
  function ArticleRates(arts: seq<Article>): set<real> {
    set k | 0 <= k < |arts| :: arts[k].tva
  }

  lemma RateSetCons(g: TaxGroup, gs: seq<TaxGroup>)
    ensures RateSet([g] + gs) == {g.rate} + RateSet(gs)
  {
    var t := [g] + gs;
    assert forall x :: x in t <==> x == g || x in gs;
  }

  lemma {:induction false} DistinctRateCount(gs: seq<TaxGroup>)
    requires DistinctRates(gs)
    ensures |RateSet(gs)| == |gs|
    decreases |gs|
  {
    if |gs| > 0 {
      var tail := gs[1..];
      assert gs == [gs[0]] + tail;
      DistinctTail(gs);
      DistinctRateCount(tail);
      RateSetCons(gs[0], tail);
    }
  }

  /** The breakdown carries exactly the lines' rates. */
  lemma BreakdownRates(arts: seq<Article>)
    ensures RateSet(TvaParTaux(arts)) == ArticleRates(arts)
  {
    var g := TvaParTaux(arts);
    forall r | r in RateSet(g)
      ensures r in ArticleRates(arts)
    {
      var x :| x in g && x.rate == r;
      var i :| 0 <= i < |g| && g[i] == x;
      FirstIndexFound(arts, r);
      assert arts[FirstIndex(arts, r)].tva == r;
    }
    forall r | r in ArticleRates(arts)
      ensures r in RateSet(g)
    {
      var k :| 0 <= k < |arts| && arts[k].tva == r;
      RateIndexFound(g, r);
      assert g[RateIndex(g, r)] in g;
    }
  }

  /** The totals table has one row per distinct rate of the lines between
      the net and gross rows. */
  lemma TotalsRowCount(d: Document)
    ensures |TotalsRows(d)| == |ArticleRates(d.articles)| + 2
  {
    var g := TvaParTaux(d.articles);
    DistinctRateCount(g);
    BreakdownRates(d.articles);
  }

  /** The rate rows come by strictly increasing rate and carry exactly the
      lines' rates. */
  lemma TotalsRowsAscending(d: Document)
    ensures var sorted := SortByRate(TvaParTaux(d.articles));
      && Ascending(sorted)
      && RateSet(sorted) == ArticleRates(d.articles)
      && TotalsRows(d)[1..|TotalsRows(d)| - 1] == RateRows(sorted)
  {
    var g := TvaParTaux(d.articles);
    BreakdownRates(d.articles);
    SortByRateAscending(g);
    var head := [TotalsRow([Text("Total HT:")], [Fixed(TotalHT(d), 2, " €")])];
    var mid := RateRows(SortByRate(g));
    var t := TotalsRows(d);
    assert t == head + mid + [t[|t| - 1]];
    assert t[1..|t| - 1] == mid;
  }

  /** The taxes the table lists add up, with the net total, to the gross
      total it ends with. */
  lemma TotalsRowsAddUp(d: Document)
    ensures TotalsRows(d)[0] == TotalsRow([Text("Total HT:")], [Fixed(TotalHT(d), 2, " €")])
    ensures TotalsRows(d)[|TotalsRows(d)| - 1] ==
      TotalsRow([Text("<b>Total TTC:</b>")], [Text("<b>"), Fixed(TotalTTC(d), 2, " €</b>")])
    ensures TotalHT(d) + SumMontants(SortByRate(TvaParTaux(d.articles))) == TotalTTC(d)
  {
    BreakdownSumsToTotals(d);
  }

  /** `_creer_totaux` as blocks. */
  function Totaux(d: Document): (blocks: seq<Block>)
    ensures |blocks| == 1 && blocks[0] == TotalsTable(TotalsRows(d)) && Watermark !in blocks
  {
    [TotalsTable(TotalsRows(d))]
  }

  // ----- The variant block and the closing paragraphs -----

  /** `_creer_infos_devis` / `_creer_infos_facture`. A quote states its
      validity and the day it ends; computing that day fails (`None`) when
      it falls outside the years `datetime` holds. An invoice shows only
      its quote reference, when there is one. */
  function InfosVariant(d: Document): (r: Option<seq<Block>>)
    requires WellFormed(d)
    ensures r.None? <==> d.kind.Devis? && !InRange(DateValidite(d))
    ensures r.Some? ==> Watermark !in r.value
  {
    match d.kind
    case Devis(days) =>
      var until := DateValidite(d);
      if InRange(until) then Some([Spacer, ValidityLine(days, FormatDmy(until))]) else None
    case Facture(_, reference, _) =>
      Some([Spacer] + (if reference != "" then [ReferenceLine(reference)] else []))
  }

  /** A quote's block names its validity and the day it ends, which reads
      back as that many days after the issue date; an invoice's block holds
      the reference line exactly when there is a reference. */
  lemma InfosVariantContents(d: Document)
    requires WellFormed(d) && InfosVariant(d).Some?
    ensures d.kind.Devis? ==>
      && |InfosVariant(d).value| == 2
      && InfosVariant(d).value[1].ValidityLine?
      && InfosVariant(d).value[1].days == d.kind.validiteJours
      && ParseDmy(InfosVariant(d).value[1].until).Some?
      && DayNumber(ParseDmy(InfosVariant(d).value[1].until).value) == DayNumber(d.date) + d.kind.validiteJours
    ensures d.kind.Facture? ==>
      |InfosVariant(d).value| == 1 + Present(d.kind.referenceDevis)
      && (d.kind.referenceDevis != "" ==> InfosVariant(d).value[1] == ReferenceLine(d.kind.referenceDevis))
  {
    if d.kind.Devis? {
      var until := DateValidite(d);
      DmyRoundTrip(until);
      assert DayNumber(Midnight(until)) == DayNumber(until);
    }
  }

  /** A heading and its paragraph, only for a non-empty text. */
  function Section(heading: string, text: string): (blocks: seq<Block>)
    ensures |blocks| == 3 * Present(text)
    ensures Watermark !in blocks
  {
    if text == "" then [] else [Spacer, Heading(heading), Para(text)]
  }

  // ----- The story -----

  /** Python's `list.insert(i, x)` for an index inside the list. */
  function InsertAt<T>(s: seq<T>, i: nat, x: T): (r: seq<T>)
    requires i <= |s|
    ensures |r| == |s| + 1 && r[i] == x
  {
    s[..i] + [x] + s[i..]
  }

  /** Two insertions at the front, the second after the first, put both
      elements before the list in that order. */
  lemma InsertFrontTwice<T>(s: seq<T>, x: T, y: T)
    ensures InsertAt(InsertAt(s, 0, x), 1, y) == [x, y] + s
  {
    var t := InsertAt(s, 0, x);
    assert t == [x] + s;
    assert t[..1] == [x] && t[1..] == s;
  }

  /** The part of every page that does not depend on the variant: header,
      parties, article table and totals. */
  function Front(d: Document, typeDoc: string, logo: Option<Logo>): (blocks: seq<Block>)
    requires InRange(d.date)
    ensures |blocks| == 9
  {
    Entete(d, typeDoc, logo) + InfosParties(d) + TableauArticles(d) + Totaux(d)
  }

  lemma FrontHead(d: Document, typeDoc: string, logo: Option<Logo>)
    requires InRange(d.date)
    ensures forall k :: 0 <= k < 4 ==> Front(d, typeDoc, logo)[k] == Entete(d, typeDoc, logo)[k]
  {
    var e := Entete(d, typeDoc, logo);
    var b := e + InfosParties(d);
    var a := b + TableauArticles(d);
    var f := Front(d, typeDoc, logo);
    assert f == a + Totaux(d);
    assert forall k :: 0 <= k < 4 ==> f[k] == a[k] && a[k] == b[k] && b[k] == e[k];
  }

  lemma FrontParties(d: Document, typeDoc: string, logo: Option<Logo>)
    requires InRange(d.date)
    ensures Front(d, typeDoc, logo)[4] == Parties(IssuerLines(d.entreprise), ClientLines(d.client))
  {
    var e := Entete(d, typeDoc, logo);
    var b := e + InfosParties(d);
    var a := b + TableauArticles(d);
    var f := Front(d, typeDoc, logo);
    assert f == a + Totaux(d);
    assert f[4] == a[4] && a[4] == b[4] && b[4] == InfosParties(d)[0];
  }

  lemma FrontArticles(d: Document, typeDoc: string, logo: Option<Logo>)
    requires InRange(d.date)
    ensures Front(d, typeDoc, logo)[6] == TableauArticles(d)[0]
  {
    var a := Entete(d, typeDoc, logo) + InfosParties(d);
    assert |a| == 6;
    assert Front(d, typeDoc, logo) == a + TableauArticles(d) + Totaux(d);
  }

  lemma FrontTotals(d: Document, typeDoc: string, logo: Option<Logo>)
    requires InRange(d.date)
    ensures Front(d, typeDoc, logo)[8] == TotalsTable(TotalsRows(d))
  {
    var a := Entete(d, typeDoc, logo) + InfosParties(d) + TableauArticles(d);
    assert |a| == 8;
    assert Front(d, typeDoc, logo) == a + Totaux(d);
  }

  /** Where each part of the front sits. */
  lemma FrontLayout(d: Document, typeDoc: string, logo: Option<Logo>)
    requires InRange(d.date)
    ensures var f := Front(d, typeDoc, logo);
      && (f[0].Title? || f[0].HeaderTable?)
      && f[2] == InfoBand(d.numero, FormatDmy(d.date))
      && f[4] == Parties(IssuerLines(d.entreprise), ClientLines(d.client))
      && f[6] == TableauArticles(d)[0]
      && f[8] == TotalsTable(TotalsRows(d))
  {
    var f := Front(d, typeDoc, logo);
    var e := Entete(d, typeDoc, logo);
    FrontHead(d, typeDoc, logo);
    assert f[0] == e[0] && f[2] == e[2];
    FrontParties(d, typeDoc, logo);
    FrontArticles(d, typeDoc, logo);
    FrontTotals(d, typeDoc, logo);
  }

  /** The front never holds the watermark. */
  lemma FrontUnmarked(d: Document, typeDoc: string, logo: Option<Logo>)
    requires InRange(d.date)
    ensures Watermark !in Front(d, typeDoc, logo)
  {
    var b := Entete(d, typeDoc, logo) + InfosParties(d);
    var a := b + TableauArticles(d);
    assert Watermark !in b;
    assert Watermark !in a;
  }

  /** The closing sections. */
  function Closing(d: Document): (blocks: seq<Block>)
    ensures |blocks| == 3 * Present(d.conditions) + 3 * Present(d.notes)
    ensures Watermark !in blocks
  {
    Section("<b>Conditions:</b>", d.conditions) + Section("<b>Notes:</b>", d.notes)
  }

  /** `generer_pdf`: the blocks in page order, or `None` when the quote's
      end of validity cannot be computed. A trial copy gets the watermark
      and a spacer inserted at the front. */
  function Story(d: Document, typeDoc: string, isTrial: bool, probe: LogoProbe): (r: Option<seq<Block>>)
    requires WellFormed(d)
    ensures r.None? <==> d.kind.Devis? && !InRange(DateValidite(d))
  {
    match InfosVariant(d)
    case None => None
    case Some(variant) =>
      var body := Front(d, typeDoc, LoadLogo(d.entreprise.logo, probe)) + variant + Closing(d);
      Some(if isTrial then InsertAt(InsertAt(body, 0, Watermark), 1, Spacer) else body)
  }

  /** The two insertions of a trial copy amount to putting the watermark
      and a spacer in front of the untouched story. */
  lemma TrialStory(d: Document, typeDoc: string, probe: LogoProbe)
    requires WellFormed(d)
    ensures Story(d, typeDoc, true, probe).Some? <==> Story(d, typeDoc, false, probe).Some?
    ensures Story(d, typeDoc, true, probe).Some? ==>
      Story(d, typeDoc, true, probe).value == [Watermark, Spacer] + Story(d, typeDoc, false, probe).value
  {
    if InfosVariant(d).Some? {
      var body := Story(d, typeDoc, false, probe).value;
      InsertFrontTwice(body, Watermark, Spacer);
    }
  }

  /** The order of the story: after the optional watermark and spacer come
      the title, the number band, the parties, the article table and the
      totals at fixed places, then the variant block; the closing sections
      appear exactly when their texts are not empty. */
  lemma StoryOrder(d: Document, typeDoc: string, isTrial: bool, probe: LogoProbe)
    requires WellFormed(d)
    requires Story(d, typeDoc, isTrial, probe).Some?
    ensures var s := Story(d, typeDoc, isTrial, probe).value;
      var o := if isTrial then 2 else 0;
      && |s| == o + 9 + |InfosVariant(d).value| + 3 * Present(d.conditions) + 3 * Present(d.notes)
      && (isTrial ==> s[0] == Watermark && s[1] == Spacer)
      && (s[o].Title? || s[o].HeaderTable?)
      && s[o + 2] == InfoBand(d.numero, FormatDmy(d.date))
      && s[o + 4] == Parties(IssuerLines(d.entreprise), ClientLines(d.client))
      && s[o + 6] == TableauArticles(d)[0]
      && s[o + 8] == TotalsTable(TotalsRows(d))
  {
    BodyOrder(d, typeDoc, probe);
    if isTrial {
      TrialStory(d, typeDoc, probe);
      var body := Story(d, typeDoc, false, probe).value;
      var s := Story(d, typeDoc, true, probe).value;
      assert forall k :: 0 <= k < |body| ==> s[k + 2] == body[k];
    }
  }

  /** The order of the story of a copy that is not a trial. */
  lemma BodyOrder(d: Document, typeDoc: string, probe: LogoProbe)
    requires WellFormed(d) && InfosVariant(d).Some?
    ensures var b := Story(d, typeDoc, false, probe).value;
      && |b| == 9 + |InfosVariant(d).value| + 3 * Present(d.conditions) + 3 * Present(d.notes)
      && (b[0].Title? || b[0].HeaderTable?)
      && b[2] == InfoBand(d.numero, FormatDmy(d.date))
      && b[4] == Parties(IssuerLines(d.entreprise), ClientLines(d.client))
      && b[6] == TableauArticles(d)[0]
      && b[8] == TotalsTable(TotalsRows(d))
  {
    var logo := LoadLogo(d.entreprise.logo, probe);
    var f := Front(d, typeDoc, logo);
    FrontLayout(d, typeDoc, logo);
    StoryBody(d, typeDoc, probe);
    var fv := f + InfosVariant(d).value;
    assert forall k :: 0 <= k < 9 ==> fv[k] == f[k];
    var b := fv + Closing(d);
    assert forall k :: 0 <= k < 9 ==> b[k] == fv[k];
  }

  /** The story of a copy that is not a trial: the front, the variant
      block, the closing sections. */
  lemma StoryBody(d: Document, typeDoc: string, probe: LogoProbe)
    requires WellFormed(d) && InfosVariant(d).Some?
    ensures var f := Front(d, typeDoc, LoadLogo(d.entreprise.logo, probe));
      Story(d, typeDoc, false, probe) == Some((f + InfosVariant(d).value) + Closing(d))
  {
  }

  /** Only a trial copy carries the watermark. */
  lemma WatermarkIffTrial(d: Document, typeDoc: string, isTrial: bool, probe: LogoProbe)
    requires WellFormed(d)
    requires Story(d, typeDoc, isTrial, probe).Some?
    ensures Watermark in Story(d, typeDoc, isTrial, probe).value <==> isTrial
  {
    FrontUnmarked(d, typeDoc, LoadLogo(d.entreprise.logo, probe));
    TrialStory(d, typeDoc, probe);
  }

  /** An invoice's page shows neither its due date nor whether it is paid:
      changing either leaves the story unchanged. */
  lemma InvoiceIgnoresDueDateAndPaid(d: Document, e: DateTime, paid: bool, typeDoc: string,
                                    isTrial: bool, probe: LogoProbe)
    requires WellFormed(d) && d.kind.Facture? && InRange(e)
    ensures var d' := d.(kind := Facture(e, d.kind.referenceDevis, paid));
      Story(d', typeDoc, isTrial, probe) == Story(d, typeDoc, isTrial, probe)
  {
    var d' := d.(kind := Facture(e, d.kind.referenceDevis, paid));
    var logo := LoadLogo(d.entreprise.logo, probe);
    assert InfosVariant(d') == InfosVariant(d);
    assert Entete(d', typeDoc, logo) == Entete(d, typeDoc, logo);
    assert InfosParties(d') == InfosParties(d);
    assert TableauArticles(d') == TableauArticles(d);
    assert TotalHT(d') == TotalHT(d) && TotalTTC(d') == TotalTTC(d);
    assert TotalsRows(d') == TotalsRows(d);
    assert Front(d', typeDoc, logo) == Front(d, typeDoc, logo);
    assert Closing(d') == Closing(d);
  }
}
