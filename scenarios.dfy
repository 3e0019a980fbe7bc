/**
 * Particular input lines and what the converter does with them, derived
 * from the general lemmas: the documented `1 m in km`, the banner's
 * `1 mi in ft`, and one line for each kind of error.
 */
module Scenarios {
  import opened Options
  import opened Tokens
  import opened Numbers
  import opened Tables
  import opened Converter

  /** The sample line is its tokens joined by single spaces. */
  lemma MetreInKilometresLine()
    ensures "1 m in km" == Join(["1", "m", "in", "km"])
  {
  }

  /** The token "1" is read as the number one. */
  lemma OneIsOne()
    ensures ParseDecimal("1") == Some(1.0)
  {
    IntegerToken("1");
  }

  /** The factors the tables give the metre and the kilometre. */
  lemma MetreAndKilometreFactors()
    ensures Factor("m") == 1.0 && Factor("km") == 0.001
  {
  }

  /** One metre is a thousandth of a kilometre. */
  lemma MetreInKilometres()
    ensures Convert("1 m in km") == Converted("1", "m", 0.001, "km")
  {
    OneIsOne();
    MetreAndKilometreFactors();
    assert ConvertAmount(1.0, "m", "km") == 1.0 / 1.0 * 0.001;
    ConvertsRequest("1", 1.0, "m", "km");
    MetreInKilometresLine();
  }

  /** The factors the tables give the mile and the foot. */
  lemma MileAndFootFactors()
    ensures Factor("mi") == 0.000621371 && Factor("ft") == 3.280841666667
  {
  }

  /** The mile and foot factors put a mile at 3280841666667/621371000 feet. */
  lemma MileRatio()
    ensures 5280.0044847 < 1.0 / 0.000621371 * 3.280841666667 < 5280.0044848
  {
  }

  /** The sample line is its tokens joined by single spaces. */
  lemma MileInFeetLine()
    ensures "1 mi in ft" == Join(["1", "mi", "in", "ft"])
  {
  }

  /** One mile, through the metre factors of the tables, is a little over
      5280.0044 feet. */
  lemma MileInFeet()
    ensures Convert("1 mi in ft").Converted?
    ensures 5280.0044847 < Convert("1 mi in ft").result < 5280.0044848
  {
    OneIsOne();
    MileAndFootFactors();
    assert ConvertAmount(1.0, "mi", "ft") == 1.0 / 0.000621371 * 3.280841666667;
    MileRatio();
    ConvertsRequest("1", 1.0, "mi", "ft");
    MileInFeetLine();
  }

  /** The sample line is its tokens joined by single spaces. */
  lemma InchesInInchesLine()
    ensures "1 in in in" == Join(["1", "in", "in", "in"])
  {
  }

  /** "in" is both the connector and the inch, so this line is a valid
      request from inches to inches. */
  lemma InchesInInches()
    ensures Convert("1 in in in") == Converted("1", "in", 1.0, "in")
  {
    OneIsOne();
    ConvertIdentity(1.0, "in");
    ConvertsRequest("1", 1.0, "in", "in");
    InchesInInchesLine();
  }

  /** An empty line has no tokens and so the wrong format. */
  lemma EmptyLineIsInvalid()
    ensures Convert("") == Failed(InvalidFormat)
  {
  }

  /** The sample line is its tokens joined by single spaces. */
  lemma UnknownSourceUnitLine()
    ensures "5 xyz in m" == Join(["5", "xyz", "in", "m"])
  {
  }

  /** A unit missing from every table is reported as the source. */
  lemma UnknownSourceUnit()
    ensures Convert("5 xyz in m") == Failed(InvalidSourceUnit("xyz"))
  {
    var ws := ["5", "xyz", "in", "m"];
    IntegerToken("5");
    RejectsSourceUnit(ws);
    RejectsLine(ws);
    UnknownSourceUnitLine();
  }

  /** The sample line is its tokens joined by single spaces. */
  lemma WrongConnectorLine()
    ensures "1 m to km" == Join(["1", "m", "to", "km"])
  {
  }

  /** Any connector but "in" is refused. */
  lemma WrongConnector()
    ensures Convert("1 m to km") == Failed(InvalidConnector("to"))
  {
    var ws := ["1", "m", "to", "km"];
    OneIsOne();
    RejectsConnector(ws);
    RejectsLine(ws);
    WrongConnectorLine();
  }

  /** The sample line is its tokens joined by single spaces. */
  lemma WordAsAmountLine()
    ensures "abc m in km" == Join(["abc", "m", "in", "km"])
  {
  }

  /** A word is no amount, and the amount is checked before the units. */
  lemma WordAsAmount()
    ensures Convert("abc m in km") == Failed(InvalidAmount("abc"))
  {
    var ws := ["abc", "m", "in", "km"];
    RejectsNoDigit("abc");
    RejectsAmount(ws);
    RejectsLine(ws);
    WordAsAmountLine();
  }

  /** The sample line is its tokens joined by single spaces. */
  lemma LengthToMassLine()
    ensures "1 m in g" == Join(["1", "m", "in", "g"])
  {
  }

  /** A length cannot be converted to a mass; the error names both
      categories as the tables tag them. */
  lemma LengthToMass()
    ensures Convert("1 m in g") == Failed(InvalidCategories(Distance, "m", Volume, "g"))
  {
    var ws := ["1", "m", "in", "g"];
    OneIsOne();
    RejectsCategories(ws);
    RejectsLine(ws);
    LengthToMassLine();
  }
}
