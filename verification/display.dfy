/** How amounts appear on screen and on paper. A cell records the value and
    the format applied to it; `Printed` is what the format makes visible.
    `f"{x:.2f}"` and `f"{x:.1f}"` on a `Decimal` round half to even (the
    default context) and then show exactly that many decimals, so the
    printed cell keeps the rounded value; the digits of `str(x)` are left
    symbolic. */
module Display {

  import opened Models
  import Digits = Text

  datatype Cell =
    | Text(s: string)                                   // shown as is
    | Shown(x: real)                                    // `str(x)`
    | Fixed(x: real, decimals: nat, suffix: string)     // `f"{x:.<decimals>f}<suffix>"`

  /** `10^d` as a real, the factor that turns `d` decimals into units. */
  function Scale(d: nat): (p: real)
    ensures p >= 1.0
  {
    Digits.Pow10(d) as real
  }

  predicate IsInt(y: real) {
    y.Floor as real == y
  }

  /** `x` has at most `d` decimals. */
  predicate HasDecimals(x: real, d: nat) {
    IsInt(x * Scale(d))
  }

  /** The integer nearest to `y`, ties to the even one. */
  function NearestEven(y: real): (n: int)
    ensures -0.5 <= n as real - y <= 0.5
    ensures IsInt(y) ==> n as real == y
  {
    var f := y.Floor;
    var frac := y - f as real;
    if frac < 0.5 then f
    else if frac > 0.5 then f + 1
    else if f % 2 == 0 then f else f + 1
  }

  lemma DivThenMul(n: real, p: real)
    requires p > 0.0
    ensures (n / p) * p == n
  {
  }

  lemma MulThenDiv(x: real, p: real)
    requires p > 0.0
    ensures (x * p) / p == x
  {
  }

  /** `x` rounded to `d` decimals, half to even, as the format rounds it. */
  function Round(x: real, d: nat): (r: real)
    ensures r * Scale(d) == NearestEven(x * Scale(d)) as real
    ensures HasDecimals(r, d)
  {
    var n := NearestEven(x * Scale(d)) as real;
    DivThenMul(n, Scale(d));
    assert IsInt(n);
    n / Scale(d)
  }

  /** Rounding moves a value by at most half a unit of the last shown
      decimal, and leaves a value that already has `d` decimals alone: so
      rounding twice is rounding once. */
  lemma RoundProperties(x: real, d: nat)
    ensures -0.5 <= Round(x, d) * Scale(d) - x * Scale(d) <= 0.5
    ensures HasDecimals(x, d) ==> Round(x, d) == x
    ensures Round(Round(x, d), d) == Round(x, d)
  {
    RoundKeepsDecimals(x, d);
    RoundKeepsDecimals(Round(x, d), d);
  }

  lemma RoundKeepsDecimals(x: real, d: nat)
    ensures HasDecimals(x, d) ==> Round(x, d) == x
  {
    if HasDecimals(x, d) {
      var p := Scale(d);
      assert Round(x, d) * p == x * p;
      MulThenDiv(x, p);
      MulThenDiv(Round(x, d), p);
    }
  }

  /** What a cell shows: a fixed-point cell shows its value rounded. */
  function Printed(c: Cell): (v: Cell)
    ensures v.Fixed? <==> c.Fixed?
    ensures c.Fixed? ==> v.decimals == c.decimals && v.suffix == c.suffix && HasDecimals(v.x, v.decimals)
    ensures !c.Fixed? ==> v == c
  {
    match c
    case Fixed(x, d, s) => Fixed(Round(x, d), d, s)
    case _ => c
  }

  /** The five cells of a line, in the window's list and in the PDF table:
      designation, quantity as `str`, unit price with 2 decimals and " €",
      rate with 1 decimal and "%", net amount with 2 decimals and " €". */
  function ArticleRow(a: Article): (row: seq<Cell>)
    ensures |row| == 5
  {
    [Text(a.designation), Shown(a.quantite), Fixed(a.prixUnitaire, 2, " €"),
     Fixed(a.tva, 1, "%"), Fixed(MontantHT(a), 2, " €")]
  }

  /** What the row of a line shows. */
  function PrintedRow(a: Article): (row: seq<Cell>)
    ensures |row| == 5
  {
    var r := ArticleRow(a);
    [Printed(r[0]), Printed(r[1]), Printed(r[2]), Printed(r[3]), Printed(r[4])]
  }

  /** A fixed-point cell of a value with no more decimals than it shows
      shows that value exactly. */
  lemma FixedShowsValue(x: real, y: real, d: nat, suffix: string)
    requires HasDecimals(x, d) && HasDecimals(y, d)
    ensures Printed(Fixed(x, d, suffix)) == Printed(Fixed(y, d, suffix)) <==> x == y
  {
    RoundKeepsDecimals(x, d);
    RoundKeepsDecimals(y, d);
  }

  /** A shown row tells lines apart when prices are in cents and rates in
      tenths of a percent: then two lines show the same row exactly when
      they are the same line. The net amount shown is the product of
      quantity and price, rounded to cents. */
  lemma PrintedRowDetermines(a: Article, b: Article)
    requires HasDecimals(a.prixUnitaire, 2) && HasDecimals(b.prixUnitaire, 2)
    requires HasDecimals(a.tva, 1) && HasDecimals(b.tva, 1)
    ensures PrintedRow(a) == PrintedRow(b) <==> a == b
    ensures PrintedRow(a)[4] == Fixed(Round(a.quantite * a.prixUnitaire, 2), 2, " €")
  {
    var ra := PrintedRow(a);
    var rb := PrintedRow(b);
    assert ArticleRow(a)[4] == Fixed(a.quantite * a.prixUnitaire, 2, " €");
    assert ra[4] == Printed(ArticleRow(a)[4]);
    if ra == rb {
      assert ra[0] == rb[0] && ra[1] == rb[1];
      assert ra[2] == rb[2];
      FixedShowsValue(a.prixUnitaire, b.prixUnitaire, 2, " €");
      assert ra[3] == rb[3];
      FixedShowsValue(a.tva, b.tva, 1, "%");
    }
  }

  /** Beyond cents the row no longer tells lines apart: unit prices 1.001
      and 1.004 both show as 1.00 €, and so do their net amounts. */
  lemma PrintedRowCollides()
    ensures var a := Article("Conseil", 1.0, 1.001, 20.0);
      var b := Article("Conseil", 1.0, 1.004, 20.0);
      a != b && PrintedRow(a) == PrintedRow(b)
  {
    var a := Article("Conseil", 1.0, 1.001, 20.0);
    var b := Article("Conseil", 1.0, 1.004, 20.0);
    assert Scale(2) == 100.0;
    assert NearestEven(1.001 * 100.0) == 100;
    assert NearestEven(1.004 * 100.0) == 100;
    DivThenMul(1.0, 100.0);
    assert Round(1.001, 2) == 1.0;
    assert Round(1.004, 2) == 1.0;
    assert MontantHT(a) == 1.001 && MontantHT(b) == 1.004;
  }

  /** One row per line, in order. */
  function ArticleRows(arts: seq<Article>): (rows: seq<seq<Cell>>)
    ensures |rows| == |arts|
    ensures forall i :: 0 <= i < |arts| ==> rows[i] == ArticleRow(arts[i])
  {
    seq(|arts|, i requires 0 <= i < |arts| => ArticleRow(arts[i]))
  }

  /** The rows follow the list through the form's edits: appending lines
      appends their rows, and removing a line removes its row. */
  lemma ArticleRowsFollowEdits(arts: seq<Article>, more: seq<Article>, i: nat)
    ensures ArticleRows(arts + more) == ArticleRows(arts) + ArticleRows(more)
    ensures i < |arts| ==>
      ArticleRows(arts[..i] + arts[i + 1..]) == ArticleRows(arts)[..i] + ArticleRows(arts)[i + 1..]
  {
    var l := ArticleRows(arts + more);
    var rr := ArticleRows(arts) + ArticleRows(more);
    assert |l| == |rr|;
    forall k | 0 <= k < |l|
      ensures l[k] == rr[k]
    {
      if k < |arts| {
        assert (arts + more)[k] == arts[k];
      } else {
        assert (arts + more)[k] == more[k - |arts|];
      }
    }
    if i < |arts| {
      var rest := arts[..i] + arts[i + 1..];
      var x := ArticleRows(rest);
      var y := ArticleRows(arts)[..i] + ArticleRows(arts)[i + 1..];
      assert |x| == |y|;
      forall k | 0 <= k < |x|
        ensures x[k] == y[k]
      {
        if k < i {
          assert rest[k] == arts[k];
        } else {
          assert rest[k] == arts[k + 1];
        }
      }
    }
  }
}
