/**
 * `DesignPattern.CreationalDesignPattern.BuilderDesignPattern`: a director
 * drives a builder through a fixed sequence of setters, each of which
 * fills one field of the product the builder created last.
 */
module ReportBuilder {
  import opened Wrappers

  /** The report's four properties at one moment. */
  datatype ReportFields = ReportFields(reportType: Option<string>, reportHeader: Option<string>,
                                       reportContent: Option<string>, reportFooter: Option<string>)

  class Report {
    var reportType: Option<string>
    var reportHeader: Option<string>
    var reportFooter: Option<string>
    var reportContent: Option<string>

    constructor()
      ensures Snapshot() == ReportFields(None, None, None, None)
    {
      reportType, reportHeader, reportFooter, reportContent := None, None, None, None;
    }

    function Snapshot(): ReportFields
      reads this
    {
      ReportFields(reportType, reportHeader, reportContent, reportFooter)
    }
  }

  /** The two concrete builders, `ExcelReport` and `PDFReport`. */
  datatype ReportKind = Excel | Pdf

  /** What each concrete builder's setters write. */
  function Texts(kind: ReportKind): ReportFields
  {
    match kind
    case Excel => ReportFields(Some("Excel"), Some("Excel Header"), Some("Excel Content Section"), Some("Excel Footer"))
    case Pdf => ReportFields(Some("PDF"), Some("PDF Header"), Some("PDF Content Section"), Some("PDF Footer"))
  }

  /** `ReportBuilder` with the overrides of the subclass named by `kind`. */
  class ReportBuilder {
    const kind: ReportKind
    var reportObject: Report?

    constructor(kind: ReportKind)
      ensures this.kind == kind && reportObject == null
    {
      this.kind := kind;
      reportObject := null;
    }

    /** Replaces the product with a new blank report. */
    method CreateNewReport()
      modifies this
      ensures fresh(reportObject) && reportObject.Snapshot() == ReportFields(None, None, None, None)
    {
      reportObject := new Report();
    }

    method GetReport() returns (r: Report?)
      ensures r == reportObject
    {
      r := reportObject;
    }

    /** Each setter writes its own property of the current report and no other. */
    method SetReportType()
      requires reportObject != null
      modifies reportObject
      ensures reportObject.Snapshot() == old(reportObject.Snapshot()).(reportType := Texts(kind).reportType)
    {
      match kind
      case Excel => reportObject.reportType := Some("Excel");
      case Pdf => reportObject.reportType := Some("PDF");
    }

    method SetReportHeader()
      requires reportObject != null
      modifies reportObject
      ensures reportObject.Snapshot() == old(reportObject.Snapshot()).(reportHeader := Texts(kind).reportHeader)
    {
      match kind
      case Excel => reportObject.reportHeader := Some("Excel Header");
      case Pdf => reportObject.reportHeader := Some("PDF Header");
    }

    method SetReportContent()
      requires reportObject != null
      modifies reportObject
      ensures reportObject.Snapshot() == old(reportObject.Snapshot()).(reportContent := Texts(kind).reportContent)
    {
      match kind
      case Excel => reportObject.reportContent := Some("Excel Content Section");
      case Pdf => reportObject.reportContent := Some("PDF Content Section");
    }

    method SetReportFooter()
      requires reportObject != null
      modifies reportObject
      ensures reportObject.Snapshot() == old(reportObject.Snapshot()).(reportFooter := Texts(kind).reportFooter)
    {
      match kind
      case Excel => reportObject.reportFooter := Some("Excel Footer");
      case Pdf => reportObject.reportFooter := Some("PDF Footer");
    }
  }

  class ReportDirector {
    constructor()
    {
    }

    /** A new report with every property set by the builder; reports made earlier are not touched. */
    method MakeReport(reportBuilder: ReportBuilder) returns (r: Report)
      modifies reportBuilder
      ensures fresh(r) && r == reportBuilder.reportObject
      ensures r.Snapshot() == Texts(reportBuilder.kind)
    {
      reportBuilder.CreateNewReport();
      reportBuilder.SetReportType();
      reportBuilder.SetReportHeader();
      reportBuilder.SetReportContent();
      reportBuilder.SetReportFooter();
      var got := reportBuilder.GetReport();
      r := got;
    }
  }

  /** `Program.Main`: the PDF report, then the Excel report. */
  method Scenario() returns (pdf: ReportFields, excel: ReportFields)
    ensures pdf == ReportFields(Some("PDF"), Some("PDF Header"), Some("PDF Content Section"), Some("PDF Footer"))
    ensures excel == ReportFields(Some("Excel"), Some("Excel Header"), Some("Excel Content Section"), Some("Excel Footer"))
  {
    var reportDirector := new ReportDirector();
    var pdfReport := new ReportBuilder(Pdf);
    var report := reportDirector.MakeReport(pdfReport);
    pdf := report.Snapshot();
    var excelReport := new ReportBuilder(Excel);
    report := reportDirector.MakeReport(excelReport);
    excel := report.Snapshot();
  }

  /** A second run of the same builder makes a new report and leaves the first as it was. */
  method SecondRunKeepsFirst(kind: ReportKind) returns (first: ReportFields, firstAfter: ReportFields, distinct: bool)
    ensures first == Texts(kind) && firstAfter == first && distinct
  {
    var reportDirector := new ReportDirector();
    var builder := new ReportBuilder(kind);
    var r1 := reportDirector.MakeReport(builder);
    first := r1.Snapshot();
    var r2 := reportDirector.MakeReport(builder);
    firstAfter := r1.Snapshot();
    distinct := r1 != r2;
  }
}

/**
 * `BuilderDesignPattern.RealTimeExample`: beverages built by a director
 * from a tea or a coffee recipe.
 */
module BeverageBuilder {
  import opened Wrappers
  import Text

  /** The beverage's five properties at one moment. */
  datatype BeverageFields = BeverageFields(water: int, milk: int, sugar: int, powderQuantity: int, beverageName: Option<string>)

  class Beverage {
    var water: int
    var milk: int
    var sugar: int
    var powderQuantity: int
    var beverageName: Option<string>

    constructor()
      ensures Snapshot() == BeverageFields(0, 0, 0, 0, None)
    {
      water, milk, sugar, powderQuantity, beverageName := 0, 0, 0, 0, None;
    }

    function Snapshot(): BeverageFields
      reads this
    {
      BeverageFields(water, milk, sugar, powderQuantity, beverageName)
    }

    /** `ShowBeverage`. */
    function ShowBeverage(): string
      reads this
    {
      Description(Snapshot())
    }
  }

  /**
   * The text `ShowBeverage` builds: every quantity in decimal, a null name
   * printed as nothing, and no space before "ml of milk".
   */
  function Description(f: BeverageFields): string
  {
    var name := if f.beverageName.Some? then f.beverageName.value else "";
    "Hot " + name + " [" + Text.IntToString(f.water) + " ml of water, " + Text.IntToString(f.milk) + "ml of milk, " +
    Text.IntToString(f.sugar) + " gm of sugar, " + Text.IntToString(f.powderQuantity) + " gm of " + name + "]\n"
  }

  function Name(f: BeverageFields): string
  {
    if f.beverageName.Some? then f.beverageName.value else ""
  }

  /** The description up to the milk. */
  function Head(f: BeverageFields): string
  {
    "Hot " + Name(f) + " [" + Text.IntToString(f.water) + " ml of water, " + Text.IntToString(f.milk) + "ml of milk, "
  }

  /** The description from the sugar on. */
  function Tail(f: BeverageFields): string
  {
    Text.IntToString(f.sugar) + " gm of sugar, " + Text.IntToString(f.powderQuantity) + " gm of " + Name(f) + "]\n"
  }

  /** Where each piece of a description-shaped concatenation starts, for any pieces. */
  lemma SlicesOfPieces(c0: string, n: string, c1: string, w: string, c2: string, m: string, c3: string,
                       s: string, c4: string, p: string, c5: string, c6: string)
    ensures
      var d := c0 + n + c1 + w + c2 + m + c3 + s + c4 + p + c5 + n + c6;
      var atWater := |c0| + |n| + |c1|;
      var atMilk := atWater + |w| + |c2|;
      var atSugar := atMilk + |m| + |c3|;
      var atPowder := atSugar + |s| + |c4|;
      var atName := atPowder + |p| + |c5|;
      |d| == atName + |n| + |c6| &&
      d[..|c0|] == c0 && d[|c0|..|c0| + |n|] == n && d[atName..atName + |n|] == n &&
      d[atWater..atWater + |w|] == w && d[atMilk..atMilk + |m|] == m &&
      d[atSugar..atSugar + |s|] == s && d[atPowder..atPowder + |p|] == p
  {
  }

  /**
   * The description carries the name after "Hot " and before "]", and
   * each quantity's decimal text at its place, which reads back as that
   * quantity.
   */
  lemma DescriptionReadsBack(f: BeverageFields)
    ensures
      var w, m := Text.IntToString(f.water), Text.IntToString(f.milk);
      var s, p := Text.IntToString(f.sugar), Text.IntToString(f.powderQuantity);
      var d, n := Description(f), |Name(f)|;
      var atWater := |"Hot "| + n + |" ["|;
      var atMilk := atWater + |w| + |" ml of water, "|;
      var atSugar := atMilk + |m| + |"ml of milk, "|;
      var atPowder := atSugar + |s| + |" gm of sugar, "|;
      var atName := atPowder + |p| + |" gm of "|;
      |d| == atName + n + |"]\n"| &&
      d[..4] == "Hot " && d[4..4 + n] == Name(f) && d[atName..atName + n] == Name(f) &&
      Text.ParseInteger(d[atWater..atWater + |w|]) == Some(f.water) &&
      Text.ParseInteger(d[atMilk..atMilk + |m|]) == Some(f.milk) &&
      Text.ParseInteger(d[atSugar..atSugar + |s|]) == Some(f.sugar) &&
      Text.ParseInteger(d[atPowder..atPowder + |p|]) == Some(f.powderQuantity)
  {
    SlicesOfPieces("Hot ", Name(f), " [", Text.IntToString(f.water), " ml of water, ", Text.IntToString(f.milk),
      "ml of milk, ", Text.IntToString(f.sugar), " gm of sugar, ", Text.IntToString(f.powderQuantity), " gm of ", "]\n");
    Text.ParseIntToString(f.water);
    Text.ParseIntToString(f.milk);
    Text.ParseIntToString(f.sugar);
    Text.ParseIntToString(f.powderQuantity);
  }

  /** The description splits after the milk. */
  lemma DescriptionParts(f: BeverageFields)
    ensures Description(f) == Head(f) + Tail(f)
  {
  }

  /** The two concrete builders, `TeaBuider` and `CoffeeBuilder`. */
  datatype BeverageKind = Tea | Coffee

  /** What each concrete builder's setters write. */
  function Recipe(kind: BeverageKind): BeverageFields
  {
    match kind
    case Tea => BeverageFields(50, 60, 15, 20, Some("Tea"))
    case Coffee => BeverageFields(40, 50, 10, 15, Some("Coffee"))
  }

  /** `BeverageBuilder` with the overrides of the subclass named by `kind`. */
  class BeverageBuilder {
    const kind: BeverageKind
    var beverage: Beverage?

    constructor(kind: BeverageKind)
      ensures this.kind == kind && beverage == null
    {
      this.kind := kind;
      beverage := null;
    }

    method CreateBeverage()
      modifies this
      ensures fresh(beverage) && beverage.Snapshot() == BeverageFields(0, 0, 0, 0, None)
    {
      beverage := new Beverage();
    }

    method GetBeverage() returns (b: Beverage?)
      ensures b == beverage
    {
      b := beverage;
    }

    method SetBeverageType()
      requires beverage != null
      modifies beverage
      ensures beverage.Snapshot() == old(beverage.Snapshot()).(beverageName := Recipe(kind).beverageName)
    {
      var b := GetBeverage();
      match kind
      case Tea => b.beverageName := Some("Tea");
      case Coffee => b.beverageName := Some("Coffee");
    }

    method SetWater()
      requires beverage != null
      modifies beverage
      ensures beverage.Snapshot() == old(beverage.Snapshot()).(water := Recipe(kind).water)
    {
      var b := GetBeverage();
      match kind
      case Tea => b.water := 50;
      case Coffee => b.water := 40;
    }

    method SetMilk()
      requires beverage != null
      modifies beverage
      ensures beverage.Snapshot() == old(beverage.Snapshot()).(milk := Recipe(kind).milk)
    {
      var b := GetBeverage();
      match kind
      case Tea => b.milk := 60;
      case Coffee => b.milk := 50;
    }

    method SetSugar()
      requires beverage != null
      modifies beverage
      ensures beverage.Snapshot() == old(beverage.Snapshot()).(sugar := Recipe(kind).sugar)
    {
      var b := GetBeverage();
      match kind
      case Tea => b.sugar := 15;
      case Coffee => b.sugar := 10;
    }

    method SetPowderQuantity()
      requires beverage != null
      modifies beverage
      ensures beverage.Snapshot() == old(beverage.Snapshot()).(powderQuantity := Recipe(kind).powderQuantity)
    {
      var b := GetBeverage();
      match kind
      case Tea => b.powderQuantity := 20;
      case Coffee => b.powderQuantity := 15;
    }
  }

  class BeverageDirector {
    constructor()
    {
    }

    /** A new beverage filled in from the builder's recipe. */
    method MakeBeverage(beverageBuilder: BeverageBuilder) returns (b: Beverage)
      modifies beverageBuilder
      ensures fresh(b) && b == beverageBuilder.beverage
      ensures b.Snapshot() == Recipe(beverageBuilder.kind)
    {
      beverageBuilder.CreateBeverage();
      beverageBuilder.SetBeverageType();
      beverageBuilder.SetWater();
      beverageBuilder.SetMilk();
      beverageBuilder.SetSugar();
      beverageBuilder.SetPowderQuantity();
      var got := beverageBuilder.GetBeverage();
      b := got;
    }
  }

  /** The tea's text up to the milk, and from the sugar on. */
  lemma TeaHead()
    ensures Head(Recipe(Tea)) == "Hot Tea [50 ml of water, 60ml of milk, "
  {
    assert Text.IntToString(50) == "50" by { assert Text.NatToString(5) == "5"; }
    assert Text.IntToString(60) == "60" by { assert Text.NatToString(6) == "6"; }
    assert "Hot " + "Tea" == "Hot Tea";
    assert "Hot Tea" + " [" == "Hot Tea [";
    assert "Hot Tea [" + "50" == "Hot Tea [50";
    assert "Hot Tea [50" + " ml of water, " == "Hot Tea [50 ml of water, ";
    assert "Hot Tea [50 ml of water, " + "60" == "Hot Tea [50 ml of water, 60";
    assert "Hot Tea [50 ml of water, 60" + "ml of milk, " == "Hot Tea [50 ml of water, 60ml of milk, ";
  }

  lemma TeaTail()
    ensures Tail(Recipe(Tea)) == "15 gm of sugar, 20 gm of Tea]\n"
  {
    assert Text.IntToString(15) == "15" by { assert Text.NatToString(1) == "1"; }
    assert Text.IntToString(20) == "20" by { assert Text.NatToString(2) == "2"; }
    assert "15" + " gm of sugar, " == "15 gm of sugar, ";
    assert "15 gm of sugar, " + "20" == "15 gm of sugar, 20";
    assert "15 gm of sugar, 20" + " gm of " == "15 gm of sugar, 20 gm of ";
    assert "15 gm of sugar, 20 gm of " + "Tea" == "15 gm of sugar, 20 gm of Tea";
    assert "15 gm of sugar, 20 gm of Tea" + "]\n" == "15 gm of sugar, 20 gm of Tea]\n";
  }

  /** The tea's description. */
  lemma TeaDescription()
    ensures Description(Recipe(Tea)) == "Hot Tea [50 ml of water, 60ml of milk, " + "15 gm of sugar, 20 gm of Tea]\n"
  {
    TeaHead();
    TeaTail();
    DescriptionParts(Recipe(Tea));
  }

  /** The coffee's text up to the milk, and from the sugar on. */
  lemma CoffeeHead()
    ensures Head(Recipe(Coffee)) == "Hot Coffee [40 ml of water, 50ml of milk, "
  {
    assert Text.IntToString(40) == "40" by { assert Text.NatToString(4) == "4"; }
    assert Text.IntToString(50) == "50" by { assert Text.NatToString(5) == "5"; }
    assert "Hot " + "Coffee" == "Hot Coffee";
    assert "Hot Coffee" + " [" == "Hot Coffee [";
    assert "Hot Coffee [" + "40" == "Hot Coffee [40";
    assert "Hot Coffee [40" + " ml of water, " == "Hot Coffee [40 ml of water, ";
    assert "Hot Coffee [40 ml of water, " + "50" == "Hot Coffee [40 ml of water, 50";
    assert "Hot Coffee [40 ml of water, 50" + "ml of milk, " == "Hot Coffee [40 ml of water, 50ml of milk, ";
  }

  lemma CoffeeTail()
    ensures Tail(Recipe(Coffee)) == "10 gm of sugar, 15 gm of Coffee]\n"
  {
    assert Text.IntToString(10) == "10" by { assert Text.NatToString(1) == "1"; }
    assert Text.IntToString(15) == "15" by { assert Text.NatToString(1) == "1"; }
    assert "10" + " gm of sugar, " == "10 gm of sugar, ";
    assert "10 gm of sugar, " + "15" == "10 gm of sugar, 15";
    assert "10 gm of sugar, 15" + " gm of " == "10 gm of sugar, 15 gm of ";
    assert "10 gm of sugar, 15 gm of " + "Coffee" == "10 gm of sugar, 15 gm of Coffee";
    assert "10 gm of sugar, 15 gm of Coffee" + "]\n" == "10 gm of sugar, 15 gm of Coffee]\n";
  }

  /** The coffee's description. */
  lemma CoffeeDescription()
    ensures Description(Recipe(Coffee)) == "Hot Coffee [40 ml of water, 50ml of milk, " + "10 gm of sugar, 15 gm of Coffee]\n"
  {
    CoffeeHead();
    CoffeeTail();
    DescriptionParts(Recipe(Coffee));
  }

  /** `Program.Main`: the descriptions of the tea and then the coffee. */
  method Scenario() returns (tea: string, coffee: string)
    ensures tea == "Hot Tea [50 ml of water, 60ml of milk, " + "15 gm of sugar, 20 gm of Tea]\n"
    ensures coffee == "Hot Coffee [40 ml of water, 50ml of milk, " + "10 gm of sugar, 15 gm of Coffee]\n"
  {
    var beverageDirector := new BeverageDirector();
    var teaBuilder := new BeverageBuilder(Tea);
    var beverage := beverageDirector.MakeBeverage(teaBuilder);
    tea := beverage.ShowBeverage();
    TeaDescription();
    var coffeeBuilder := new BeverageBuilder(Coffee);
    beverage := beverageDirector.MakeBeverage(coffeeBuilder);
    coffee := beverage.ShowBeverage();
    CoffeeDescription();
  }
}
