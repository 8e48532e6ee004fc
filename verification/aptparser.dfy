/**
 * The airport side of the parser: ParseAptDat reads the lines of an
 * `apt.dat` file into a list of airports, each with the runways listed
 * after it.
 */
module AptParser {
  import opened Wrappers
  import opened ParseUtil
  import opened Numeric

  /** A `vec2` (a pair of doubles), kept as the two fields `stof` converted. */
  datatype Vec2 = Vec2(first: string, second: string)

  datatype Runway = Runway(start: Vec2, end: Vec2)

  /** An airport as its constructor makes it, then extended with runways. */
  datatype Airport = Airport(icao: string, name: string, runways: seq<Runway>)

  /** The row code of an airport header line. */
  const AirportCode: string := "1"
  /** The row code of a land runway line. */
  const RunwayCode: string := "100"

  // ---------------------------------------------------------------------
  // The specification of one line

  /**
   * What the loop body demands of a non-empty line, given the airports read
   * so far, in the order it reads: a field 0; fields 4 and 5 on an airport
   * line; on a runway line field 9, then field 10 once field 9 converts,
   * fields 18 and 19 in turn, and an airport to attach the runway to once all
   * four convert.
   */
  predicate LineReadable(airports: seq<Airport>, tkn: seq<string>)
  {
    && |tkn| >= 1
    && (tkn[0] == AirportCode ==> |tkn| >= 6)
    && (tkn[0] == RunwayCode ==>
          && |tkn| >= 10
          && (StofAccepts(tkn[9]) ==> |tkn| >= 11)
          && (|tkn| >= 11 && StofAccepts(tkn[9]) && StofAccepts(tkn[10]) ==> |tkn| >= 19)
          && (|tkn| >= 19 && StofAccepts(tkn[9]) && StofAccepts(tkn[10]) && StofAccepts(tkn[18]) ==> |tkn| >= 20)
          && (RunwayEndsConvert(tkn) ==> |airports| > 0))
  }

  /** A runway line whose four coordinate fields are present and convert. */
  predicate RunwayEndsConvert(tkn: seq<string>)
  {
    |tkn| >= 20 && StofAccepts(tkn[9]) && StofAccepts(tkn[10]) && StofAccepts(tkn[18]) && StofAccepts(tkn[19])
  }

  /** `airports` with `rw` appended to the runways of the last one. */
  function AddRunway(airports: seq<Airport>, rw: Runway): seq<Airport>
    requires |airports| > 0
  {
    var last := airports[|airports| - 1];
    airports[|airports| - 1 := last.(runways := last.runways + [rw])]
  }

  /**
   * The airports after one non-empty line, or the field whose `stof`
   * conversion throws (the exception leaves ParseAptDat).
   */
  function Step(airports: seq<Airport>, tkn: seq<string>): (r: Result<seq<Airport>, ParseError>)
    requires LineReadable(airports, tkn)
    ensures r.Failure? ==> tkn[0] == RunwayCode
  {
    if tkn[0] == AirportCode then Success(airports + [Airport(tkn[4], tkn[5], [])])
    else if tkn[0] == RunwayCode then
      if !StofAccepts(tkn[9]) then Failure(BadNumber(9))
      else if !StofAccepts(tkn[10]) then Failure(BadNumber(10))
      else if !StofAccepts(tkn[18]) then Failure(BadNumber(18))
      else if !StofAccepts(tkn[19]) then Failure(BadNumber(19))
      else Success(AddRunway(airports, Runway(Vec2(tkn[9], tkn[10]), Vec2(tkn[18], tkn[19]))))
    else Success(airports)
  }

  /**
   * Every line the loop reaches from index `i` on, starting from `airports`,
   * meets what the loop body demands of it. Lines after a "99" line or after
   * a line whose conversion throws are never reached.
   */
  predicate LinesReadableFrom(lines: seq<string>, i: nat, airports: seq<Airport>)
    decreases |lines| - i
  {
    i < |lines| && lines[i] != "99" ==>
      if |lines[i]| == 0 then LinesReadableFrom(lines, i + 1, airports)
      else
        && LineReadable(airports, Tokenise(lines[i]))
        && (Step(airports, Tokenise(lines[i])).Success? ==>
              LinesReadableFrom(lines, i + 1, Step(airports, Tokenise(lines[i])).value))
  }

  /** The airports after the lines from index `i` on, starting from `airports`. */
  function AptFrom(lines: seq<string>, i: nat, airports: seq<Airport>): Result<seq<Airport>, ParseError>
    requires LinesReadableFrom(lines, i, airports)
    decreases |lines| - i
  {
    if i >= |lines| || lines[i] == "99" then Success(airports)
    else if |lines[i]| == 0 then AptFrom(lines, i + 1, airports)
    else
      match Step(airports, Tokenise(lines[i]))
      case Failure(e) => Failure(e)
      case Success(next) => AptFrom(lines, i + 1, next)
  }

  // ---------------------------------------------------------------------
  // The reader

  /**
   * ParseAptDat over the lines of the file: airport lines open a new
   * airport, runway lines extend the last one, everything else is ignored,
   * until a "99" line.
   */
  method ParseAptDat(lines: seq<string>) returns (r: Result<seq<Airport>, ParseError>)
    requires LinesReadableFrom(lines, 0, [])
    ensures r == AptFrom(lines, 0, [])
  {
    var airports: seq<Airport> := [];
    var i := 0;
    while i < |lines| && lines[i] != "99"
      invariant LinesReadableFrom(lines, i, airports)
      invariant AptFrom(lines, 0, []) == AptFrom(lines, i, airports)
      decreases |lines| - i
    {
      var line := lines[i];
      if |line| > 0 {
        var tkn := Tokenise(line);
        if tkn[0] == AirportCode {
          airports := airports + [Airport(tkn[4], tkn[5], [])];
        } else if tkn[0] == RunwayCode {
          if !StofAccepts(tkn[9]) {
            return Failure(BadNumber(9));
          }
          if !StofAccepts(tkn[10]) {
            return Failure(BadNumber(10));
          }
          var start := Vec2(tkn[9], tkn[10]);
          if !StofAccepts(tkn[18]) {
            return Failure(BadNumber(18));
          }
          if !StofAccepts(tkn[19]) {
            return Failure(BadNumber(19));
          }
          var end := Vec2(tkn[18], tkn[19]);
          var last := airports[|airports| - 1];
          airports := airports[|airports| - 1 := last.(runways := last.runways + [Runway(start, end)])];
        }
      }
      i := i + 1;
    }
    return Success(airports);
  }

  // ---------------------------------------------------------------------
  // Properties of one line

  /** An airport line appends one airport with fields 4 and 5 and no runways; the others stay. */
  lemma AirportLine(airports: seq<Airport>, tkn: seq<string>)
    requires LineReadable(airports, tkn) && tkn[0] == AirportCode
    ensures Step(airports, tkn).Success?
    ensures var next := Step(airports, tkn).value;
      && |next| == |airports| + 1
      && next[..|airports|] == airports
      && next[|airports|] == Airport(tkn[4], tkn[5], [])
  {
    var next := Step(airports, tkn).value;
    assert next[..|airports|] == airports;
  }

  /**
   * A runway line whose four coordinates convert adds exactly one runway,
   * from fields 9/10 to fields 18/19, to the last airport; the count and
   * every earlier airport stay as they were.
   */
  lemma RunwayLine(airports: seq<Airport>, tkn: seq<string>)
    requires LineReadable(airports, tkn) && tkn[0] == RunwayCode
    requires StofAccepts(tkn[9]) && StofAccepts(tkn[10]) && StofAccepts(tkn[18]) && StofAccepts(tkn[19])
    ensures Step(airports, tkn).Success?
    ensures var next, k := Step(airports, tkn).value, |airports| - 1;
      && |next| == |airports|
      && next[..k] == airports[..k]
      && next[k].icao == airports[k].icao
      && next[k].name == airports[k].name
      && next[k].runways == airports[k].runways + [Runway(Vec2(tkn[9], tkn[10]), Vec2(tkn[18], tkn[19]))]
  {
    var next, k := Step(airports, tkn).value, |airports| - 1;
    assert next[..k] == airports[..k];
  }

  /** A runway line whose coordinate does not convert throws, naming the first such field. */
  lemma RunwayLineRejected(airports: seq<Airport>, tkn: seq<string>)
    requires LineReadable(airports, tkn) && tkn[0] == RunwayCode
    ensures Step(airports, tkn).Failure? <==>
      !(StofAccepts(tkn[9]) && StofAccepts(tkn[10]) && StofAccepts(tkn[18]) && StofAccepts(tkn[19]))
    ensures Step(airports, tkn) == Failure(BadNumber(9)) <==> !StofAccepts(tkn[9])
  {
  }

  /** Any other row code, "01" and "101" included, leaves the airports as they were. */
  lemma OtherLineIgnored(airports: seq<Airport>, tkn: seq<string>)
    requires LineReadable(airports, tkn) && tkn[0] != AirportCode && tkn[0] != RunwayCode
    ensures Step(airports, tkn) == Success(airports)
  {
  }

  // ---------------------------------------------------------------------
  // Properties of the reader

  /** Field 0 of a line, or "" when it has none. */
  function RowCode(line: string): string
  {
    var tkn := Tokenise(line);
    if tkn == [] then "" else tkn[0]
  }

  /** The number of lines from index `i` up to the first "99" whose row code is `code`. */
  function CountRows(lines: seq<string>, i: nat, code: string): nat
    decreases |lines| - i
  {
    if i >= |lines| || lines[i] == "99" then 0
    else (if RowCode(lines[i]) == code then 1 else 0) + CountRows(lines, i + 1, code)
  }

  /** The number of runways over all airports. */
  function TotalRunways(airports: seq<Airport>): nat
  {
    if airports == [] then 0
    else TotalRunways(airports[..|airports| - 1]) + |airports[|airports| - 1].runways|
  }

  /** One line adds one airport per airport line and one runway per runway line. */
  lemma StepCounts(airports: seq<Airport>, line: string)
    requires |line| > 0 && LineReadable(airports, Tokenise(line))
    requires Step(airports, Tokenise(line)).Success?
    ensures var next := Step(airports, Tokenise(line)).value;
      && |next| == |airports| + (if RowCode(line) == AirportCode then 1 else 0)
      && TotalRunways(next) == TotalRunways(airports) + (if RowCode(line) == RunwayCode then 1 else 0)
  {
    var tkn := Tokenise(line);
    var next := Step(airports, tkn).value;
    if tkn[0] == AirportCode {
      assert next[..|next| - 1] == airports;
    } else if tkn[0] == RunwayCode {
      assert next[..|next| - 1] == airports[..|airports| - 1];
    }
  }

  /**
   * A read that completes holds one airport per airport line and one runway
   * per runway line before the terminator.
   */
  lemma {:induction false} Counts(lines: seq<string>, i: nat, airports: seq<Airport>)
    requires LinesReadableFrom(lines, i, airports) && AptFrom(lines, i, airports).Success?
    ensures |AptFrom(lines, i, airports).value| == |airports| + CountRows(lines, i, AirportCode)
    ensures TotalRunways(AptFrom(lines, i, airports).value) ==
      TotalRunways(airports) + CountRows(lines, i, RunwayCode)
    decreases |lines| - i
  {
    if i < |lines| && lines[i] != "99" {
      if |lines[i]| == 0 {
        Counts(lines, i + 1, airports);
      } else {
        StepCounts(airports, lines[i]);
        Counts(lines, i + 1, Step(airports, Tokenise(lines[i])).value);
      }
    }
  }

  /** Every airport of a completed read of a file comes from an airport line. */
  lemma AirportCount(lines: seq<string>)
    requires LinesReadableFrom(lines, 0, []) && AptFrom(lines, 0, []).Success?
    ensures |AptFrom(lines, 0, []).value| == CountRows(lines, 0, AirportCode)
    ensures TotalRunways(AptFrom(lines, 0, []).value) == CountRows(lines, 0, RunwayCode)
  {
    Counts(lines, 0, []);
  }

  /**
   * Reading on never changes an airport before the last one, and the last
   * one only gains runways at the end of its list.
   */
  lemma {:induction false} EarlierAirportsKept(lines: seq<string>, i: nat, airports: seq<Airport>)
    requires LinesReadableFrom(lines, i, airports) && AptFrom(lines, i, airports).Success?
    ensures var r := AptFrom(lines, i, airports).value;
      && |r| >= |airports|
      && (|airports| > 0 ==> r[..|airports| - 1] == airports[..|airports| - 1])
      && (|airports| > 0 ==>
            var k := |airports| - 1;
            && r[k].icao == airports[k].icao
            && r[k].name == airports[k].name
            && airports[k].runways <= r[k].runways)
    decreases |lines| - i
  {
    if i < |lines| && lines[i] != "99" {
      if |lines[i]| == 0 {
        EarlierAirportsKept(lines, i + 1, airports);
      } else {
        var tkn := Tokenise(lines[i]);
        var next := Step(airports, tkn).value;
        EarlierAirportsKept(lines, i + 1, next);
        if tkn[0] == AirportCode {
          AirportLine(airports, tkn);
        } else if tkn[0] == RunwayCode {
          RunwayLine(airports, tkn);
        }
      }
    }
  }

  /** No line after the first "99" is looked at: the read stops there. */
  lemma {:induction false} TerminatorEndsInput(lines: seq<string>, k: nat, i: nat, airports: seq<Airport>)
    requires i <= k < |lines| && lines[k] == "99"
    ensures LinesReadableFrom(lines, i, airports) <==> LinesReadableFrom(lines[..k], i, airports)
    ensures LinesReadableFrom(lines, i, airports) ==> AptFrom(lines, i, airports) == AptFrom(lines[..k], i, airports)
    decreases k - i
  {
    if i < k && lines[i] != "99" {
      assert lines[..k][i] == lines[i];
      if |lines[i]| == 0 {
        TerminatorEndsInput(lines, k, i + 1, airports);
      } else {
        var tkn := Tokenise(lines[i]);
        if LineReadable(airports, tkn) && Step(airports, tkn).Success? {
          TerminatorEndsInput(lines, k, i + 1, Step(airports, tkn).value);
        }
      }
    }
  }

  /** Only the lines from the read position on matter. */
  lemma {:induction false} SameRest(x: seq<string>, i: nat, y: seq<string>, j: nat, airports: seq<Airport>)
    requires i <= |x| && j <= |y| && x[i..] == y[j..]
    ensures LinesReadableFrom(x, i, airports) <==> LinesReadableFrom(y, j, airports)
    ensures LinesReadableFrom(x, i, airports) ==> AptFrom(x, i, airports) == AptFrom(y, j, airports)
    decreases |x| - i
  {
    if i < |x| {
      assert x[i] == x[i..][0] == y[j..][0] == y[j];
      assert x[i + 1..] == x[i..][1..] == y[j..][1..] == y[j + 1..];
      if x[i] != "99" {
        if |x[i]| == 0 {
          SameRest(x, i + 1, y, j + 1, airports);
        } else {
          var tkn := Tokenise(x[i]);
          if LineReadable(airports, tkn) && Step(airports, tkn).Success? {
            SameRest(x, i + 1, y, j + 1, Step(airports, tkn).value);
          }
        }
      }
    } else {
      assert |y[j..]| == 0;
    }
  }

  /** An empty line, wherever it stands, changes neither what is required nor the result. */
  lemma {:induction false} EmptyLineSkipped(before: seq<string>, after: seq<string>, i: nat, airports: seq<Airport>)
    requires i <= |before|
    ensures LinesReadableFrom(before + [""] + after, i, airports) <==> LinesReadableFrom(before + after, i, airports)
    ensures LinesReadableFrom(before + after, i, airports) ==>
      AptFrom(before + [""] + after, i, airports) == AptFrom(before + after, i, airports)
    decreases |before| - i
  {
    var x, y := before + [""] + after, before + after;
    if i == |before| {
      assert x[i + 1..] == after == y[i..];
      SameRest(x, i + 1, y, i, airports);
    } else {
      assert x[i] == before[i] == y[i];
      if x[i] != "99" {
        if |x[i]| == 0 {
          EmptyLineSkipped(before, after, i + 1, airports);
        } else {
          var tkn := Tokenise(x[i]);
          if LineReadable(airports, tkn) && Step(airports, tkn).Success? {
            EmptyLineSkipped(before, after, i + 1, Step(airports, tkn).value);
          }
        }
      }
    }
  }
}
