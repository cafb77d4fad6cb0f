/** The JSON archive of a document: the record written by
    `sauvegarder_document`, its file name, and the reader
    `charger_document`, which answers `None` wherever Python raises. */
module Archive {

  import opened Wrappers
  import opened Text
  import opened Calendar
  import opened DateText
  import opened Numbers
  import opened Models

  /** A parsed JSON value. Numbers written from `float` are `JFloat`. */
  datatype Json =
    | JNull
    | JBool(b: bool)
    | JInt(i: int)
    | JFloat(f: real)
    | JStr(s: string)
    | JArr(items: seq<Json>)
    | JObj(fields: map<string, Json>)

  // ----- Writing -----

  function EncodeEntreprise(e: Entreprise): Json {
    JObj(map[
      "nom" := JStr(e.nom), "adresse" := JStr(e.adresse),
      "code_postal" := JStr(e.codePostal), "ville" := JStr(e.ville),
      "siret" := JStr(e.siret), "tva_intracommunautaire" := JStr(e.tvaIntracommunautaire),
      "telephone" := JStr(e.telephone), "email" := JStr(e.email), "logo" := JStr(e.logo)])
  }

  function EncodeClient(c: Client): Json {
    JObj(map[
      "nom" := JStr(c.nom), "prenom" := JStr(c.prenom), "entreprise" := JStr(c.entreprise),
      "adresse" := JStr(c.adresse), "code_postal" := JStr(c.codePostal),
      "ville" := JStr(c.ville), "email" := JStr(c.email), "telephone" := JStr(c.telephone)])
  }

  /** A line; amounts are written through `float(...)`. */
  function EncodeArticle(a: Article): Json {
    JObj(map[
      "designation" := JStr(a.designation), "quantite" := JFloat(a.quantite),
      "prix_unitaire" := JFloat(a.prixUnitaire), "tva" := JFloat(a.tva)])
  }

  function EncodeArticles(arts: seq<Article>): (r: seq<Json>)
    ensures |r| == |arts|
  {
    if |arts| == 0 then [] else [EncodeArticle(arts[0])] + EncodeArticles(arts[1..])
  }

  /** The keys every archive carries, whatever its kind. */
  const CommonKeys: set<string> :=
    {"numero", "date", "entreprise", "client", "articles", "conditions", "notes", "type"}

  /** The part of the record every document has. */
  function EncodeCommon(d: Document, typeDoc: string): (m: map<string, Json>)
    requires InRange(d.date)
    ensures m.Keys == CommonKeys
    ensures m["type"] == JStr(Lower(typeDoc))
    ensures m["numero"] == JStr(d.numero) && m["date"] == JStr(IsoFormat(d.date))
    ensures m["entreprise"] == EncodeEntreprise(d.entreprise)
    ensures m["client"] == EncodeClient(d.client)
    ensures m["articles"] == JArr(EncodeArticles(d.articles))
    ensures m["conditions"] == JStr(d.conditions) && m["notes"] == JStr(d.notes)
  {
    map[
      "numero" := JStr(d.numero), "date" := JStr(IsoFormat(d.date)),
      "entreprise" := EncodeEntreprise(d.entreprise), "client" := EncodeClient(d.client),
      "articles" := JArr(EncodeArticles(d.articles)),
      "conditions" := JStr(d.conditions), "notes" := JStr(d.notes),
      "type" := JStr(Lower(typeDoc))]
  }

  /** The keys of the variant part are distinct from the common ones. */
  lemma VariantKeys()
    ensures "validite_jours" !in CommonKeys
    ensures "date_echeance" !in CommonKeys && "reference_devis" !in CommonKeys && "payee" !in CommonKeys
    ensures "date_echeance" != "reference_devis" && "date_echeance" != "payee" && "reference_devis" != "payee"
    ensures "validite_jours" != "date_echeance" && "validite_jours" != "reference_devis" && "validite_jours" != "payee"
  {
  }

  /** A quote's record: the common part and its validity. */
  function WithValidity(common: map<string, Json>, days: int): (m: map<string, Json>)
    requires common.Keys == CommonKeys
    ensures m.Keys == CommonKeys + {"validite_jours"} && CommonKeys <= m.Keys
    ensures "date_echeance" !in m
    ensures forall k :: k in CommonKeys ==> m[k] == common[k]
    ensures m["validite_jours"] == JInt(days)
  {
    VariantKeys();
    common["validite_jours" := JInt(days)]
  }

  /** An invoice's record: the common part, the due date, the quote
      reference and the paid flag. */
  function WithDueDate(common: map<string, Json>, due: string, reference: string, paid: bool): (m: map<string, Json>)
    requires common.Keys == CommonKeys
    ensures m.Keys == CommonKeys + {"date_echeance", "reference_devis", "payee"} && CommonKeys <= m.Keys
    ensures "validite_jours" !in m
    ensures forall k :: k in CommonKeys ==> m[k] == common[k]
    ensures m["date_echeance"] == JStr(due) && m["reference_devis"] == JStr(reference) && m["payee"] == JBool(paid)
  {
    VariantKeys();
    common["date_echeance" := JStr(due)]["reference_devis" := JStr(reference)]["payee" := JBool(paid)]
  }

  /** The record `sauvegarder_document` writes: the common keys, plus
      `validite_jours` for a quote or `date_echeance`, `reference_devis`
      and `payee` for an invoice. The `type` key holds the label in lower
      case. */
  function Encode(d: Document, typeDoc: string): (j: Json)
    requires WellFormed(d)
    ensures j.JObj? && CommonKeys <= j.fields.Keys
    ensures forall k :: k in CommonKeys ==> j.fields[k] == EncodeCommon(d, typeDoc)[k]
    ensures d.kind.Devis? ==> "validite_jours" in j.fields && "date_echeance" !in j.fields
    ensures d.kind.Devis? ==> j.fields["validite_jours"] == JInt(d.kind.validiteJours)
    ensures d.kind.Facture? ==> "validite_jours" !in j.fields
    ensures d.kind.Facture? ==> "date_echeance" in j.fields && "reference_devis" in j.fields && "payee" in j.fields
    ensures d.kind.Facture? ==> j.fields["date_echeance"] == JStr(IsoFormat(d.kind.dateEcheance))
    ensures d.kind.Facture? ==> j.fields["reference_devis"] == JStr(d.kind.referenceDevis)
    ensures d.kind.Facture? ==> j.fields["payee"] == JBool(d.kind.payee)
  {
    var common := EncodeCommon(d, typeDoc);
    match d.kind
    case Devis(v) => JObj(WithValidity(common, v))
    case Facture(due, reference, paid) => JObj(WithDueDate(common, IsoFormat(due), reference, paid))
  }

  /** The archive's file name, `<label in lower case>_<numero>.json`. */
  function ArchiveName(typeDoc: string, numero: string): (name: string)
    ensures |name| == |typeDoc| + |numero| + 6
    ensures name[..|typeDoc|] == Lower(typeDoc)
    ensures name[|name| - 5..] == ".json"
  {
    Lower(typeDoc) + "_" + numero + ".json"
  }

  /** Two documents of one label get different files exactly when their
      numbers differ. */
  lemma ArchiveNameInjective(typeDoc: string, n1: string, n2: string)
    ensures ArchiveName(typeDoc, n1) == ArchiveName(typeDoc, n2) <==> n1 == n2
  {
    if ArchiveName(typeDoc, n1) == ArchiveName(typeDoc, n2) {
      var k := |typeDoc| + 1;
      assert ArchiveName(typeDoc, n1)[k..k + |n1|] == n1;
      assert ArchiveName(typeDoc, n2)[k..k + |n2|] == n2;
    }
  }

  // ----- Reading -----

  function Str(j: Json): Option<string> {
    match j
    case JStr(s) => Some(s)
    case _ => None
  }

  /** `data[key]` read as a string: `None` when the key is missing. */
  function StrField(m: map<string, Json>, key: string): Option<string> {
    if key in m then Str(m[key]) else None
  }

  /** `data.get(key, default)` read as a string. */
  function StrOr(m: map<string, Json>, key: string, default: string): Option<string> {
    if key in m then Str(m[key]) else Some(default)
  }

  const EntrepriseKeys: set<string> :=
    {"nom", "adresse", "code_postal", "ville", "siret", "tva_intracommunautaire", "telephone", "email", "logo"}

  const EntrepriseRequired: set<string> := {"nom", "adresse", "code_postal", "ville"}

  const ClientKeys: set<string> :=
    {"nom", "prenom", "entreprise", "adresse", "code_postal", "ville", "email", "telephone"}

  /** `Entreprise(**data)`: an object whose keys are fields of the class,
      including every field without a default; absent ones take their
      default. */
  function DecodeEntreprise(j: Json): (r: Option<Entreprise>)
    ensures r.Some? ==> j.JObj? && EntrepriseRequired <= j.fields.Keys <= EntrepriseKeys
  {
    match j
    case JObj(m) =>
      if !(m.Keys <= EntrepriseKeys) || !(EntrepriseRequired <= m.Keys) then None
      else
        var nom :- StrField(m, "nom");
        var adresse :- StrField(m, "adresse");
        var codePostal :- StrField(m, "code_postal");
        var ville :- StrField(m, "ville");
        var siret :- StrOr(m, "siret", "");
        var tva :- StrOr(m, "tva_intracommunautaire", "");
        var telephone :- StrOr(m, "telephone", "");
        var email :- StrOr(m, "email", "");
        var logo :- StrOr(m, "logo", "");
        Some(Entreprise(nom, adresse, codePostal, ville, siret, tva, telephone, email, logo))
    case _ => None
  }

  /** `Client(**data)`: only `nom` is required. */
  function DecodeClient(j: Json): (r: Option<Client>)
    ensures r.Some? ==> j.JObj? && "nom" in j.fields && j.fields.Keys <= ClientKeys
  {
    match j
    case JObj(m) =>
      if !(m.Keys <= ClientKeys) || "nom" !in m then None
      else
        var nom :- StrField(m, "nom");
        var prenom :- StrOr(m, "prenom", "");
        var entreprise :- StrOr(m, "entreprise", "");
        var adresse :- StrOr(m, "adresse", "");
        var codePostal :- StrOr(m, "code_postal", "");
        var ville :- StrOr(m, "ville", "");
        var email :- StrOr(m, "email", "");
        var telephone :- StrOr(m, "telephone", "");
        Some(Client(nom, prenom, entreprise, adresse, codePostal, ville, email, telephone))
    case _ => None
  }

  /** `Decimal(str(value))`: a JSON number, or a string holding a decimal
      literal; anything else makes `Decimal` raise. */
  function DecodeNumber(j: Json): Option<real> {
    match j
    case JInt(n) => Some(n as real)
    case JFloat(x) => Some(x)
    case JStr(s) => ParseDecimal(s)
    case _ => None
  }

  /** One line: the four keys are required, any others are ignored. */
  function DecodeArticle(j: Json): (r: Option<Article>)
    ensures r.Some? ==> j.JObj? && {"designation", "quantite", "prix_unitaire", "tva"} <= j.fields.Keys
  {
    match j
    case JObj(m) =>
      var designation :- StrField(m, "designation");
      var qj :- if "quantite" in m then Some(m["quantite"]) else None;
      var quantite :- DecodeNumber(qj);
      var pj :- if "prix_unitaire" in m then Some(m["prix_unitaire"]) else None;
      var prix :- DecodeNumber(pj);
      var tj :- if "tva" in m then Some(m["tva"]) else None;
      var tva :- DecodeNumber(tj);
      Some(Article(designation, quantite, prix, tva))
    case _ => None
  }

  function DecodeItems(items: seq<Json>): (r: Option<seq<Article>>)
    ensures r.Some? ==> |r.value| == |items|
  {
    if |items| == 0 then Some([])
    else
      var a :- DecodeArticle(items[0]);
      var rest :- DecodeItems(items[1..]);
      Some([a] + rest)
  }

  /** `for art_data in data['articles']`: a list of line objects. Iterating
      an empty object or an empty string yields nothing; a non-empty one
      yields keys or characters, which cannot be indexed by a string. */
  function DecodeArticles(j: Json): (r: Option<seq<Article>>)
    ensures r.Some? && !j.JArr? ==> r.value == []
  {
    match j
    case JArr(items) => DecodeItems(items)
    case JObj(m) => if |m| == 0 then Some([]) else None
    case JStr(s) => if s == "" then Some([]) else None
    case _ => None
  }

  /** `datetime.fromisoformat(value)`. */
  function DecodeDate(j: Json): (r: Option<DateTime>)
    ensures r.Some? ==> InRange(r.value)
  {
    match j
    case JStr(s) => ParseIso(s)
    case _ => None
  }

  /** The fields every document has, read from the common keys. */
  datatype Header = Header(
    numero: string, date: DateTime, client: Client, articles: seq<Article>,
    entreprise: Entreprise, conditions: string, notes: string)

  function DecodeHeader(m: map<string, Json>): (r: Option<Header>)
    ensures r.Some? ==> CommonKeys <= m.Keys && InRange(r.value.date)
  {
    if !(CommonKeys <= m.Keys) then None
    else
      var entreprise :- DecodeEntreprise(m["entreprise"]);
      var client :- DecodeClient(m["client"]);
      var articles :- DecodeArticles(m["articles"]);
      var numero :- Str(m["numero"]);
      var date :- DecodeDate(m["date"]);
      var conditions :- Str(m["conditions"]);
      var notes :- Str(m["notes"]);
      Some(Header(numero, date, client, articles, entreprise, conditions, notes))
  }

  /** The variant part: `validite_jours` is required for a quote;
      `date_echeance` is required for an invoice, `reference_devis` and
      `payee` default to "" and false. */
  function DecodeKind(m: map<string, Json>, isDevis: bool): (r: Option<Kind>)
    ensures r.Some? ==> (r.value.Devis? <==> isDevis)
    ensures r.Some? && r.value.Facture? ==> InRange(r.value.dateEcheance)
  {
    if isDevis then
      if "validite_jours" in m && m["validite_jours"].JInt? then Some(Devis(m["validite_jours"].i)) else None
    else
      var due :- if "date_echeance" in m then DecodeDate(m["date_echeance"]) else None;
      var ref :- StrOr(m, "reference_devis", "");
      var payee :- if "payee" !in m then Some(false) else if m["payee"].JBool? then Some(m["payee"].b) else None;
      Some(Facture(due, ref, payee))
  }

  /** `charger_document`: the document and the raw `type` value. The tag
      `"devis"` reads a quote; any other tag reads an invoice. */
  function Decode(j: Json): (r: Option<(Document, Json)>)
    ensures r.Some? ==> j.JObj? && CommonKeys <= j.fields.Keys
    ensures r.Some? ==> r.value.1 == j.fields["type"]
    ensures r.Some? ==> (r.value.0.kind.Devis? <==> r.value.1 == JStr("devis"))
    ensures r.Some? ==> WellFormed(r.value.0)
  {
    match j
    case JObj(m) =>
      var h :- DecodeHeader(m);
      var tag := m["type"];
      var kind :- DecodeKind(m, tag == JStr("devis"));
      Some((Document(h.numero, h.date, h.client, h.articles, h.entreprise, h.conditions, h.notes, kind), tag))
    case _ => None
  }

  // ----- Round trip -----

  lemma EntrepriseKeysWritten(e: Entreprise)
    ensures EncodeEntreprise(e).fields.Keys == EntrepriseKeys
  {
  }

  lemma EntrepriseFieldsWritten(e: Entreprise)
    ensures var m := EncodeEntreprise(e).fields;
      && StrField(m, "nom") == Some(e.nom) && StrField(m, "adresse") == Some(e.adresse)
      && StrField(m, "code_postal") == Some(e.codePostal) && StrField(m, "ville") == Some(e.ville)
      && StrOr(m, "siret", "") == Some(e.siret)
      && StrOr(m, "tva_intracommunautaire", "") == Some(e.tvaIntracommunautaire)
      && StrOr(m, "telephone", "") == Some(e.telephone) && StrOr(m, "email", "") == Some(e.email)
      && StrOr(m, "logo", "") == Some(e.logo)
  {
  }

  lemma EntrepriseRoundTrip(e: Entreprise)
    ensures DecodeEntreprise(EncodeEntreprise(e)) == Some(e)
  {
    EntrepriseKeysWritten(e);
    EntrepriseFieldsWritten(e);
    assert EntrepriseRequired <= EntrepriseKeys;
  }

  lemma ClientKeysWritten(c: Client)
    ensures EncodeClient(c).fields.Keys == ClientKeys
  {
  }

  lemma ClientFieldsWritten(c: Client)
    ensures var m := EncodeClient(c).fields;
      && StrField(m, "nom") == Some(c.nom) && StrOr(m, "prenom", "") == Some(c.prenom)
      && StrOr(m, "entreprise", "") == Some(c.entreprise) && StrOr(m, "adresse", "") == Some(c.adresse)
      && StrOr(m, "code_postal", "") == Some(c.codePostal) && StrOr(m, "ville", "") == Some(c.ville)
      && StrOr(m, "email", "") == Some(c.email) && StrOr(m, "telephone", "") == Some(c.telephone)
  {
  }

  lemma ClientRoundTrip(c: Client)
    ensures DecodeClient(EncodeClient(c)) == Some(c)
  {
    ClientKeysWritten(c);
    ClientFieldsWritten(c);
    assert "nom" in ClientKeys;
  }

  lemma {:induction false} ArticlesRoundTrip(arts: seq<Article>)
    ensures DecodeArticles(JArr(EncodeArticles(arts))) == Some(arts)
  {
    if |arts| > 0 {
      ArticlesRoundTrip(arts[1..]);
      assert EncodeArticles(arts)[1..] == EncodeArticles(arts[1..]);
      assert [arts[0]] + arts[1..] == arts;
    }
  }

  function HeaderOf(d: Document): Header {
    Header(d.numero, d.date, d.client, d.articles, d.entreprise, d.conditions, d.notes)
  }

  /** The common keys, written as `Encode` writes them, read back. */
  lemma HeaderRead(m: map<string, Json>, d: Document)
    requires InRange(d.date) && CommonKeys <= m.Keys
    requires m["numero"] == JStr(d.numero) && m["date"] == JStr(IsoFormat(d.date))
    requires m["entreprise"] == EncodeEntreprise(d.entreprise) && m["client"] == EncodeClient(d.client)
    requires m["articles"] == JArr(EncodeArticles(d.articles))
    requires m["conditions"] == JStr(d.conditions) && m["notes"] == JStr(d.notes)
    ensures DecodeHeader(m) == Some(HeaderOf(d))
  {
    EntrepriseRoundTrip(d.entreprise);
    ClientRoundTrip(d.client);
    ArticlesRoundTrip(d.articles);
    IsoRoundTrip(d.date);
  }

  lemma HeaderRoundTrip(d: Document, typeDoc: string)
    requires WellFormed(d)
    ensures DecodeHeader(Encode(d, typeDoc).fields) == Some(HeaderOf(d))
  {
    var m := Encode(d, typeDoc).fields;
    var common := EncodeCommon(d, typeDoc);
    assert "numero" in CommonKeys && "date" in CommonKeys && "entreprise" in CommonKeys && "client" in CommonKeys;
    assert "articles" in CommonKeys && "conditions" in CommonKeys && "notes" in CommonKeys;
    assert m["numero"] == common["numero"] && m["date"] == common["date"];
    assert m["entreprise"] == common["entreprise"] && m["client"] == common["client"];
    assert m["articles"] == common["articles"];
    assert m["conditions"] == common["conditions"] && m["notes"] == common["notes"];
    HeaderRead(m, d);
  }

  /** A record carrying a quote's validity and no due date. */
  lemma ValidityRead(m: map<string, Json>, days: int)
    requires "validite_jours" in m && m["validite_jours"] == JInt(days) && "date_echeance" !in m
    ensures DecodeKind(m, true) == Some(Devis(days))
    ensures DecodeKind(m, false) == None
  {
  }

  /** A record carrying an invoice's fields and no validity. */
  lemma DueDateRead(m: map<string, Json>, due: DateTime, reference: string, paid: bool)
    requires InRange(due) && "validite_jours" !in m
    requires "date_echeance" in m && m["date_echeance"] == JStr(IsoFormat(due))
    requires "reference_devis" in m && m["reference_devis"] == JStr(reference)
    requires "payee" in m && m["payee"] == JBool(paid)
    ensures DecodeKind(m, false) == Some(Facture(due, reference, paid))
    ensures DecodeKind(m, true) == None
  {
    IsoRoundTrip(due);
  }

  lemma KindRoundTrip(d: Document, typeDoc: string, isDevis: bool)
    requires WellFormed(d)
    ensures DecodeKind(Encode(d, typeDoc).fields, isDevis).Some? <==> (d.kind.Devis? <==> isDevis)
    ensures DecodeKind(Encode(d, typeDoc).fields, isDevis).Some? ==> DecodeKind(Encode(d, typeDoc).fields, isDevis).value == d.kind
  {
    var m := Encode(d, typeDoc).fields;
    match d.kind
    case Devis(days) => ValidityRead(m, days);
    case Facture(due, reference, paid) => DueDateRead(m, due, reference, paid);
  }

  /** Reading back an archive gives the document that was written, with
      the lower-case label as its tag, provided the label names the
      document's kind; a quote archived under another label, or an invoice
      archived as "devis", cannot be read back. */
  lemma DecodeEncode(d: Document, typeDoc: string)
    requires WellFormed(d)
    ensures Decode(Encode(d, typeDoc)).Some? <==> (d.kind.Devis? <==> Lower(typeDoc) == "devis")
    ensures Decode(Encode(d, typeDoc)).Some? ==> Decode(Encode(d, typeDoc)).value == (d, JStr(Lower(typeDoc)))
  {
    var m := Encode(d, typeDoc).fields;
    HeaderRoundTrip(d, typeDoc);
    assert "type" in CommonKeys;
    assert m["type"] == JStr(Lower(typeDoc));
    var isDevis := m["type"] == JStr("devis");
    KindRoundTrip(d, typeDoc, isDevis);
    DecodeOfParts(m, HeaderOf(d));
  }

  /** `charger_document` put together from the header and the variant. */
  lemma DecodeOfParts(m: map<string, Json>, h: Header)
    requires DecodeHeader(m) == Some(h) && "type" in m
    ensures DecodeKind(m, m["type"] == JStr("devis")).None? ==> Decode(JObj(m)).None?
    ensures DecodeKind(m, m["type"] == JStr("devis")).Some? ==>
      Decode(JObj(m)) == Some((Document(h.numero, h.date, h.client, h.articles, h.entreprise, h.conditions, h.notes,
                                        DecodeKind(m, m["type"] == JStr("devis")).value), m["type"]))
  {
  }
}
