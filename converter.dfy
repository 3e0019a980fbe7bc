/**
 * The converter's handling of one input line: the validator, which applies
 * six checks in a fixed order and reports the first that fails, and the
 * dispatcher, which quits, reports the validator's error, or converts.
 */
module Converter {
  import opened Options
  import opened Tokens
  import opened Numbers
  import opened Tables

  /** The validator's errors, each with the offending tokens. */
  datatype ValidationError =
    | InvalidFormat
    | InvalidAmount(amount: string)
    | InvalidSourceUnit(sourceUnit: string)
    | InvalidDestinationUnit(destUnit: string)
    | InvalidConnector(connector: string)
    | InvalidCategories(sourceCategory: Category, sourceUnit: string,
                        destCategory: Category, destUnit: string)

  /** What one line leads to: leaving the program, a printed error, or a
      printed result `amount source = result dest`. */
  datatype Outcome =
    | Quit
    | Failed(error: ValidationError)
    | Converted(amount: string, source: string, result: real, dest: string)

  /** The six checks, in the order the validator applies them. */
  datatype Check =
    | FormatCheck | AmountCheck | SourceUnitCheck
    | DestinationUnitCheck | ConnectorCheck | CategoryCheck

  function Rank(c: Check): nat {
    match c
    case FormatCheck => 0
    case AmountCheck => 1
    case SourceUnitCheck => 2
    case DestinationUnitCheck => 3
    case ConnectorCheck => 4
    case CategoryCheck => 5
  }

  function CheckOf(e: ValidationError): Check {
    match e
    case InvalidFormat => FormatCheck
    case InvalidAmount(_) => AmountCheck
    case InvalidSourceUnit(_) => SourceUnitCheck
    case InvalidDestinationUnit(_) => DestinationUnitCheck
    case InvalidConnector(_) => ConnectorCheck
    case InvalidCategories(_, _, _, _) => CategoryCheck
  }

  /** Whether check `c`, taken on its own, rejects the tokens `args`
      (`amount source connector dest`). */
  predicate Fails(c: Check, args: seq<string>) {
    match c
    case FormatCheck => |args| != 4
    case AmountCheck => |args| == 4 && !IsFloat(args[0])
    case SourceUnitCheck => |args| == 4 && args[1] !in Units
    case DestinationUnitCheck => |args| == 4 && args[3] !in Units
    case ConnectorCheck => |args| == 4 && args[2] != "in"
    case CategoryCheck =>
      |args| == 4 && args[1] in Units && args[3] in Units && CategoryOf(args[1]) != CategoryOf(args[3])
  }

  /** The error a failing check reports, naming the offending tokens. */
  function ErrorFor(c: Check, args: seq<string>): (e: ValidationError)
    requires Fails(c, args)
    ensures CheckOf(e) == c
  {
    match c
    case FormatCheck => InvalidFormat
    case AmountCheck => InvalidAmount(args[0])
    case SourceUnitCheck => InvalidSourceUnit(args[1])
    case DestinationUnitCheck => InvalidDestinationUnit(args[3])
    case ConnectorCheck => InvalidConnector(args[2])
    case CategoryCheck => InvalidCategories(CategoryOf(args[1]), args[1], CategoryOf(args[3]), args[3])
  }

  /** The validator's checks on the tokens of a line, in order; the first
      failing one decides. */
  function ValidateTokens(args: seq<string>): (r: Option<ValidationError>)
    ensures r.None? <==> Accepted(args)
    ensures r.Some? ==> Fails(CheckOf(r.value), args) && r.value == ErrorFor(CheckOf(r.value), args)
  {
    if |args| != 4 then Some(InvalidFormat)
    else
      var amount, source, connector, dest := args[0], args[1], args[2], args[3];
      if !IsFloat(amount) then Some(InvalidAmount(amount))
      else if source !in Units then Some(InvalidSourceUnit(source))
      else if dest !in Units then Some(InvalidDestinationUnit(dest))
      else if connector != "in" then Some(InvalidConnector(connector))
      else if CategoryOf(source) != CategoryOf(dest) then
        Some(InvalidCategories(CategoryOf(source), source, CategoryOf(dest), dest))
      else None
  }

  /** The validator: split the line at whitespace, then check the tokens. */
  function Validate(command: string): (r: Option<ValidationError>)
    ensures r.None? <==> Accepted(Split(command))
  {
    ValidateTokens(Split(command))
  }

  /** No check fails on `args`. */
  predicate Passes(args: seq<string>) {
    forall c :: !Fails(c, args)
  }

  /** `e` is the error of the failing check of lowest rank on `args`. */
  predicate FirstFailure(e: ValidationError, args: seq<string>) {
    && Fails(CheckOf(e), args)
    && e == ErrorFor(CheckOf(e), args)
    && forall c :: Fails(c, args) ==> Rank(CheckOf(e)) <= Rank(c)
  }

  /** A well-formed conversion request, stated without any order. */
  predicate Accepted(args: seq<string>) {
    && |args| == 4
    && IsFloat(args[0]) && args[1] in Units && args[3] in Units
    && args[2] == "in" && CategoryOf(args[1]) == CategoryOf(args[3])
  }

  /** Passing every check is being a well-formed request. */
  lemma PassesIsAccepted(args: seq<string>)
    ensures Passes(args) <==> Accepted(args)
  {
    if Passes(args) {
      assert !Fails(FormatCheck, args);
      assert !Fails(AmountCheck, args);
      assert !Fails(SourceUnitCheck, args);
      assert !Fails(DestinationUnitCheck, args);
      assert !Fails(ConnectorCheck, args);
      assert !Fails(CategoryCheck, args);
    }
  }

  lemma AcceptsRequest(args: seq<string>)
    requires Accepted(args)
    ensures ValidateTokens(args) == None
  {
  }

  lemma RejectsFormat(args: seq<string>)
    requires |args| != 4
    ensures ValidateTokens(args) == Some(InvalidFormat)
    ensures FirstFailure(InvalidFormat, args)
  {
    assert Fails(FormatCheck, args);
  }

  lemma RejectsAmount(args: seq<string>)
    requires |args| == 4 && !IsFloat(args[0])
    ensures ValidateTokens(args) == Some(InvalidAmount(args[0]))
    ensures FirstFailure(InvalidAmount(args[0]), args)
  {
    assert Fails(AmountCheck, args);
  }

  lemma RejectsSourceUnit(args: seq<string>)
    requires |args| == 4 && IsFloat(args[0]) && args[1] !in Units
    ensures ValidateTokens(args) == Some(InvalidSourceUnit(args[1]))
    ensures FirstFailure(InvalidSourceUnit(args[1]), args)
  {
    assert Fails(SourceUnitCheck, args);
  }

  lemma RejectsDestinationUnit(args: seq<string>)
    requires |args| == 4 && IsFloat(args[0]) && args[1] in Units && args[3] !in Units
    ensures ValidateTokens(args) == Some(InvalidDestinationUnit(args[3]))
    ensures FirstFailure(InvalidDestinationUnit(args[3]), args)
  {
    assert Fails(DestinationUnitCheck, args);
  }

  lemma RejectsConnector(args: seq<string>)
    requires |args| == 4 && IsFloat(args[0]) && args[1] in Units && args[3] in Units
    requires args[2] != "in"
    ensures ValidateTokens(args) == Some(InvalidConnector(args[2]))
    ensures FirstFailure(InvalidConnector(args[2]), args)
  {
    assert Fails(ConnectorCheck, args);
  }

  lemma RejectsCategories(args: seq<string>)
    requires |args| == 4 && IsFloat(args[0]) && args[1] in Units && args[3] in Units
    requires args[2] == "in" && CategoryOf(args[1]) != CategoryOf(args[3])
    ensures ValidateTokens(args)
         == Some(InvalidCategories(CategoryOf(args[1]), args[1], CategoryOf(args[3]), args[3]))
    ensures FirstFailure(ValidateTokens(args).value, args)
  {
    assert Fails(CategoryCheck, args);
  }

  lemma RejectsMalformed(args: seq<string>)
    requires !Accepted(args)
    ensures ValidateTokens(args).Some? && FirstFailure(ValidateTokens(args).value, args)
  {
    if |args| != 4 {
      RejectsFormat(args);
    } else if !IsFloat(args[0]) {
      RejectsAmount(args);
    } else if args[1] !in Units {
      RejectsSourceUnit(args);
    } else if args[3] !in Units {
      RejectsDestinationUnit(args);
    } else if args[2] != "in" {
      RejectsConnector(args);
    } else {
      RejectsCategories(args);
    }
  }

  /** The checks accept tokens exactly when none of them fails; otherwise
      they report the failing check of lowest rank, with that check's
      offending tokens. */
  lemma ReportsFirstFailure(args: seq<string>)
    ensures ValidateTokens(args).None? <==> Passes(args)
    ensures ValidateTokens(args).Some? ==> FirstFailure(ValidateTokens(args).value, args)
  {
    PassesIsAccepted(args);
    if Accepted(args) {
      AcceptsRequest(args);
    } else {
      RejectsMalformed(args);
    }
  }

  /** The dispatcher: quits on the exact line "q", otherwise reports the
      validator's error or converts, echoing the amount token as typed. A
      conversion preserves the quantity: the result, taken back to the
      reference unit, is the amount taken to the reference unit. */
  function Convert(command: string): (o: Outcome)
    ensures o.Quit? <==> command == "q"
    ensures o.Failed? <==> command != "q" && Validate(command).Some?
    ensures o.Failed? ==> Validate(command) == Some(o.error)
    ensures o.Converted? ==>
              && Split(command) == [o.amount, o.source, "in", o.dest]
              && Accepted(Split(command))
              && o.source in Units && o.dest in Units
              && o.result / Factor(o.dest) == ParseDecimal(o.amount).value / Factor(o.source)
  {
    if command == "q" then Quit
    else
      match Validate(command)
      case Some(e) => Failed(e)
      case None =>
        var args := Split(command);
        ReportsFirstFailure(args);
        PassesIsAccepted(args);
        var amount, source, dest := args[0], args[1], args[3];
        Converted(amount, source, ConvertAmount(ParseDecimal(amount).value, source, dest), dest)
  }

  /** A conversion's result is the amount's value divided by the source
      unit's entry in the merged factor map and multiplied by the
      destination unit's. */
  lemma ConvertResult(command: string)
    requires Convert(command).Converted?
    ensures var o := Convert(command);
            && o.source in BaseMap && o.dest in BaseMap
            && BaseMap[o.source] > 0.0 && BaseMap[o.dest] > 0.0
            && o.result == Rescale(ParseDecimal(o.amount).value, BaseMap[o.source], BaseMap[o.dest])
  {
    var o := Convert(command);
    var v := ParseDecimal(o.amount).value;
    QuantityDeterminesResult(o.result, v, o.source, o.dest);
    ConvertAmountByBaseMap(v, o.source, o.dest);
  }

  /** Converting between a unit and itself gives back the amount read. */
  lemma ConvertSameUnit(command: string)
    requires Convert(command).Converted? && Convert(command).source == Convert(command).dest
    ensures Convert(command).result == ParseDecimal(Convert(command).amount).value
  {
    var o := Convert(command);
    assert o.result / Factor(o.dest) == ParseDecimal(o.amount).value / Factor(o.dest);
  }

  /** Two rescalings that each preserve the quantity undo each other. */
  lemma SameQuotient(a: real, r: real, b: real, f: real, g: real)
    requires f > 0.0 && g > 0.0
    requires r / g == a / f && b / f == r / g
    ensures b == a
  {
    assert b / f == a / f;
  }

  /** Feeding a result back in the opposite direction recovers the amount
      first read. */
  lemma ConvertBack(there: string, back: string)
    requires Convert(there).Converted? && Convert(back).Converted?
    requires Convert(back).source == Convert(there).dest
    requires Convert(back).dest == Convert(there).source
    requires ParseDecimal(Convert(back).amount) == Some(Convert(there).result)
    ensures Convert(back).result == ParseDecimal(Convert(there).amount).value
  {
    var o1, o2 := Convert(there), Convert(back);
    SameQuotient(ParseDecimal(o1.amount).value, o1.result, o2.result, Factor(o1.source), Factor(o1.dest));
  }

  /** Whitespace around a line does not change the validator's verdict. */
  lemma ValidateIgnoresPadding(p: string, command: string, q: string)
    requires AllSpace(p) && AllSpace(q)
    ensures Validate(p + command + q) == Validate(command)
  {
    assert p + command + q == p + (command + q);
    SplitDropsLeading(p, command + q);
    SplitDropsTrailing(command, q);
  }

  /** Only the bare line "q" quits: with whitespace around it, it is a
      line of one token and so of the wrong format. */
  lemma PaddedQuitIsInvalid(p: string, q: string)
    requires AllSpace(p) && AllSpace(q) && |p| + |q| > 0
    ensures Convert(p + "q" + q) == Failed(InvalidFormat)
  {
    ValidateIgnoresPadding(p, "q", q);
    SplitToken("q", []);
    assert "q" + [] == "q";
    assert |p + "q" + q| > 1;
  }

  /** Every known unit is one token. */
  lemma UnitIsToken(u: string)
    requires u in Units
    ensures IsToken(u)
  {
  }

  /** A request written out with single spaces is converted as its parts
      say: the amount's value `v`, carried from source to destination. */
  lemma ConvertsRequest(amount: string, v: real, source: string, dest: string)
    requires IsToken(amount) && ParseDecimal(amount) == Some(v)
    requires source in Units && dest in Units && CategoryOf(source) == CategoryOf(dest)
    ensures Convert(Join([amount, source, "in", dest]))
         == Converted(amount, source, ConvertAmount(v, source, dest), dest)
  {
    var ws := [amount, source, "in", dest];
    UnitIsToken(source);
    UnitIsToken(dest);
    assert IsToken("in");
    SplitJoin(ws);
    var line := Join(ws);
    assert |line| > 1;
    AcceptsRequest(ws);
  }

  /** A line written out from tokens, other than "q", is judged on those
      tokens: it fails with the error the checks report on them. */
  lemma RejectsLine(ws: seq<string>)
    requires forall i :: 0 <= i < |ws| ==> IsToken(ws[i])
    requires Join(ws) != "q" && ValidateTokens(ws).Some?
    ensures Convert(Join(ws)) == Failed(ValidateTokens(ws).value)
  {
    SplitJoin(ws);
  }

  /** The format error is reported exactly for lines without four tokens. */
  lemma FormatErrorIffNotFourTokens(command: string)
    ensures Validate(command) == Some(InvalidFormat) <==> |Split(command)| != 4
  {
    ReportsFirstFailure(Split(command));
  }

  /** A line of whitespace only has no tokens, so it is a format error. */
  lemma BlankLineIsInvalid(command: string)
    requires AllSpace(command)
    ensures Convert(command) == Failed(InvalidFormat)
  {
    SplitEmpty(command);
  }

  /** The validator accepts a line exactly when its tokens form a
      well-formed request. */
  lemma ValidateAcceptsExactly(command: string)
    ensures Validate(command).None? <==> Accepted(Split(command))
  {
    ReportsFirstFailure(Split(command));
    PassesIsAccepted(Split(command));
  }

  /** A line of four tokens naming an unknown unit is never converted; when
      its amount is a number the error is about a unit. */
  lemma UnknownUnitNeverConverts(command: string)
    requires |Split(command)| == 4
    requires Split(command)[1] !in Units || Split(command)[3] !in Units
    ensures !Convert(command).Converted?
    ensures IsFloat(Split(command)[0]) ==>
              Convert(command).Failed?
              && (Convert(command).error.InvalidSourceUnit? || Convert(command).error.InvalidDestinationUnit?)
  {
    var args := Split(command);
    SplitToken("q", []);
    assert "q" + [] == "q";
    if IsFloat(args[0]) {
      if args[1] !in Units {
        RejectsSourceUnit(args);
      } else {
        RejectsDestinationUnit(args);
      }
    }
  }

  /** When every earlier check passes and the units lie in different
      categories, the line fails with the category error naming both. */
  lemma CrossCategoryIsReported(command: string)
    requires |Split(command)| == 4 && IsFloat(Split(command)[0]) && Split(command)[2] == "in"
    requires Split(command)[1] in Units && Split(command)[3] in Units
    requires CategoryOf(Split(command)[1]) != CategoryOf(Split(command)[3])
    ensures Convert(command)
         == Failed(InvalidCategories(CategoryOf(Split(command)[1]), Split(command)[1],
                                     CategoryOf(Split(command)[3]), Split(command)[3]))
  {
    RejectsCategories(Split(command));
    SplitToken("q", []);
    assert "q" + [] == "q";
  }
}
