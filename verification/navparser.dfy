/**
 * The navaid side of the parser: one `earth_nav.dat` row becomes a NavAid
 * record (the NavAid constructor), and ParseEarthNavDat collects the records
 * of a whole file.
 */
module NavParser {
  import opened Wrappers
  import opened ParseUtil
  import opened Numeric

  datatype NavType =
    | Ndb | Vor | Localizer | Glideslope
    | OuterMarker | MiddleMarker | InnerMarker | Dme
    | DeccaMaster | DeccaRed | DeccaGreen | DeccaPurple
    | Other

  /**
   * A parsed navaid. Latitude and longitude are kept as the fields that
   * `stof` converted; frequency is in kHz, in tenths for every type but NDB.
   */
  datatype NavAid = NavAid(
    navType: NavType,
    latDeg: string,
    lonDeg: string,
    elevFt: int,
    freqKhz: int,
    serviceRangeNm: int,
    bearingTrueDeg: int,
    ident: string,
    name: string,
    standalone: bool)

  /** A row needs at least this many fields. */
  const MinFields: nat := 9

  // ---------------------------------------------------------------------
  // The specification of one row

  /** The type a row code selects, before the Decca override. */
  function TableType(code: int): NavType
  {
    match code
    case 2 => Ndb
    case 3 => Vor
    case 4 => Localizer
    case 5 => Localizer
    case 6 => Glideslope
    case 7 => OuterMarker
    case 8 => MiddleMarker
    case 9 => InnerMarker
    case 12 => Dme
    case 13 => Dme
    case _ => Other
  }

  /** The standalone flag a row code selects. */
  function TableStandalone(code: int): bool
  {
    match code
    case 5 => false
    case 6 => false
    case 12 => false
    case _ => true
  }

  predicate IsMarker(t: NavType)
  {
    t == OuterMarker || t == MiddleMarker || t == InnerMarker
  }

  predicate IsDeccaRole(t: NavType)
  {
    t == DeccaMaster || t == DeccaRed || t == DeccaGreen || t == DeccaPurple
  }

  /**
   * The record as it stands when the Decca branch is reached: type and flag
   * from the table, or the first failing step in the order the constructor
   * takes them.
   */
  function TableRecord(tokens: seq<string>): (r: Result<NavAid, ParseError>)
    ensures r.Success? ==> |tokens| >= MinFields
  {
    if |tokens| < MinFields then Failure(NotEnoughFields)
    else if StoI(tokens[0]).None? then Failure(BadNumber(0))
    else if !StofAccepts(tokens[1]) then Failure(BadNumber(1))
    else if !StofAccepts(tokens[2]) then Failure(BadNumber(2))
    else if StoI(tokens[3]).None? then Failure(BadNumber(3))
    else
      var code := StoI(tokens[0]).value;
      var t := TableType(code);
      if !IsMarker(t) && StoI(tokens[4]).None? then Failure(BadNumber(4))
      else
        var freq :=
          if IsMarker(t) then 0
          else if t == Ndb then StoI(tokens[4]).value
          else StoI(tokens[4]).value * 10;
        Success(NavAid(t, tokens[1], tokens[2], StoI(tokens[3]).value, freq, 0, 0,
                       tokens[7], Join(tokens[8..]), TableStandalone(code)))
  }

  /** The Decca role named by the upper-cased field 9; any other word keeps `tableType`. */
  function DeccaRole(role: string, tableType: NavType): NavType
  {
    if role == "MASTER" then DeccaMaster
    else if role == "RED" then DeccaRed
    else if role == "GREEN" then DeccaGreen
    else if role == "PURPLE" then DeccaPurple
    else tableType
  }

  /**
   * What the constructor demands of its row: a row that reaches the Decca
   * branch with "DECCA" as field 8 has a field 9, which is read unchecked.
   */
  predicate RoleReadable(tokens: seq<string>)
  {
    TableRecord(tokens).Success? && Upper(tokens[8]) == "DECCA" ==> |tokens| > MinFields
  }

  /** The record a tokenised row yields, or why it yields none. */
  function NavAidOf(tokens: seq<string>): (r: Result<NavAid, ParseError>)
    requires RoleReadable(tokens)
    ensures r.Success? <==> TableRecord(tokens).Success?
  {
    var table := TableRecord(tokens);
    if table.Failure? then table
    else if Upper(tokens[8]) == "DECCA" then
      Success(table.value.(navType := DeccaRole(Upper(tokens[9]), table.value.navType)))
    else table
  }

  // ---------------------------------------------------------------------
  // The constructor

  /** The row-code switch, with its two fall-throughs. */
  method RowCodeSwitch(code: int) returns (navType: NavType, standalone: bool)
    ensures navType == TableType(code) && standalone == TableStandalone(code)
  {
    standalone := true;
    match code {
      case 2 => navType := Ndb;
      case 3 => navType := Vor;
      case 5 =>
        // clears the flag and falls through to case 4
        standalone := false;
        navType := Localizer;
      case 4 => navType := Localizer;
      case 6 =>
        navType := Glideslope;
        standalone := false;
      case 7 => navType := OuterMarker;
      case 8 => navType := MiddleMarker;
      case 9 => navType := InnerMarker;
      case 12 =>
        // clears the flag and falls through to case 13
        standalone := false;
        navType := Dme;
      case 13 => navType := Dme;
      case _ => navType := Other;
    }
  }

  /** The Decca branch: re-type the row when field 9 names a role. */
  method DeccaBranch(tokens: seq<string>, tableType: NavType) returns (navType: NavType)
    requires RoleReadable(tokens) && TableRecord(tokens).Success?
    ensures navType == if Upper(tokens[8]) == "DECCA" then DeccaRole(Upper(tokens[9]), tableType) else tableType
  {
    navType := tableType;
    var tok8 := ToUpper(tokens[8]);
    if tok8 == "DECCA" {
      var deccaType := ToUpper(tokens[9]);
      if deccaType == "MASTER" {
        navType := DeccaMaster;
      } else if deccaType == "RED" {
        navType := DeccaRed;
      } else if deccaType == "GREEN" {
        navType := DeccaGreen;
      } else if deccaType == "PURPLE" {
        navType := DeccaPurple;
      }
    }
  }

  /**
   * NavAid::NavAid(std::string): tokenise the row, then fill the fields one
   * step at a time. A thrown exception is a Failure.
   */
  method ParseNavAid(datRow: string) returns (r: Result<NavAid, ParseError>)
    requires RoleReadable(Tokenise(datRow))
    ensures r == NavAidOf(Tokenise(datRow))
  {
    var tokens := Tokenise(datRow);
    if |tokens| < MinFields {
      return Failure(NotEnoughFields);
    }
    var code := StoI(tokens[0]);
    if code.None? {
      return Failure(BadNumber(0));
    }
    var navType, standalone := RowCodeSwitch(code.value);
    if !StofAccepts(tokens[1]) {
      return Failure(BadNumber(1));
    }
    if !StofAccepts(tokens[2]) {
      return Failure(BadNumber(2));
    }
    var elev := StoI(tokens[3]);
    if elev.None? {
      return Failure(BadNumber(3));
    }
    var freq := 0;
    if navType == OuterMarker || navType == MiddleMarker || navType == InnerMarker {
      // markers carry no frequency and field 4 is not read
    } else {
      var f := StoI(tokens[4]);
      if f.None? {
        return Failure(BadNumber(4));
      }
      freq := if navType == Ndb then f.value else f.value * 10;
    }
    var ident := tokens[7];
    // the name loop appends " " and each field after 8, as detokenise does
    var name := Detokenise(tokens, 8, |tokens|);
    assert tokens[8..|tokens|] == tokens[8..];
    assert TableRecord(tokens) == Success(NavAid(navType, tokens[1], tokens[2], elev.value, freq, 0, 0,
                                                 ident, name, standalone));
    navType := DeccaBranch(tokens, navType);
    r := Success(NavAid(navType, tokens[1], tokens[2], elev.value, freq, 0, 0, ident, name, standalone));
  }

  // ---------------------------------------------------------------------
  // Properties of one row

  /** A row with fewer than nine fields is rejected. */
  lemma ShortRowRejected(line: string)
    requires |Tokenise(line)| < MinFields
    ensures RoleReadable(Tokenise(line))
    ensures NavAidOf(Tokenise(line)) == Failure(NotEnoughFields)
  {
  }

  /** Outside the Decca override, type and standalone flag follow the row-code table. */
  lemma RowCodeTable(tokens: seq<string>)
    requires RoleReadable(tokens) && NavAidOf(tokens).Success?
    ensures |tokens| >= MinFields && StoI(tokens[0]).Some?
    ensures var code, r := StoI(tokens[0]).value, NavAidOf(tokens).value;
      && (r.standalone <==> code != 5 && code != 6 && code != 12)
      && (Upper(tokens[8]) != "DECCA" ==>
            && (r.navType == Ndb <==> code == 2)
            && (r.navType == Vor <==> code == 3)
            && (r.navType == Localizer <==> code == 4 || code == 5)
            && (r.navType == Glideslope <==> code == 6)
            && (r.navType == OuterMarker <==> code == 7)
            && (r.navType == MiddleMarker <==> code == 8)
            && (r.navType == InnerMarker <==> code == 9)
            && (r.navType == Dme <==> code == 12 || code == 13)
            && (r.navType == Other <==> code !in {2, 3, 4, 5, 6, 7, 8, 9, 12, 13}))
  {
  }

  /** Markers get no frequency, NDBs field 4, every other type ten times field 4. */
  lemma FrequencyRule(tokens: seq<string>)
    requires RoleReadable(tokens) && NavAidOf(tokens).Success?
    ensures |tokens| >= MinFields && StoI(tokens[0]).Some?
    ensures var code, r := StoI(tokens[0]).value, NavAidOf(tokens).value;
      && (code in {7, 8, 9} ==> r.freqKhz == 0)
      && (code == 2 ==> StoI(tokens[4]) == Some(r.freqKhz))
      && (code !in {2, 7, 8, 9} ==> StoI(tokens[4]).Some? && r.freqKhz == 10 * StoI(tokens[4]).value)
  {
    var table := TableRecord(tokens);
    var code := StoI(tokens[0]).value;
    assert NavAidOf(tokens).value.freqKhz == table.value.freqKhz;
    assert IsMarker(TableType(code)) <==> code in {7, 8, 9};
    assert TableType(code) == Ndb <==> code == 2;
  }

  /** On a marker row field 4 is never converted: whatever it holds, the outcome is the same. */
  lemma MarkerSkipsFrequencyField(tokens: seq<string>, junk: string)
    requires |tokens| >= MinFields && StoI(tokens[0]).Some? && StoI(tokens[0]).value in {7, 8, 9}
    requires RoleReadable(tokens)
    ensures RoleReadable(tokens[4 := junk])
    ensures NavAidOf(tokens[4 := junk]) == NavAidOf(tokens)
  {
    var other := tokens[4 := junk];
    assert other[8..] == tokens[8..];
    assert TableRecord(other) == TableRecord(tokens);
  }

  /** The Decca override changes the type and nothing else: frequency and flag stay as the table made them. */
  lemma DeccaKeepsFrequencyAndStandalone(tokens: seq<string>)
    requires RoleReadable(tokens) && NavAidOf(tokens).Success?
    ensures TableRecord(tokens).Success?
    ensures NavAidOf(tokens).value == TableRecord(tokens).value.(navType := NavAidOf(tokens).value.navType)
  {
  }

  /** Service range and true bearing are never parsed. */
  lemma RangeAndBearingZero(tokens: seq<string>)
    requires RoleReadable(tokens) && NavAidOf(tokens).Success?
    ensures NavAidOf(tokens).value.serviceRangeNm == 0
    ensures NavAidOf(tokens).value.bearingTrueDeg == 0
  {
  }

  /**
   * The ident is field 7; the name is fields 8.. joined by single spaces, so
   * tokenising the name gives those fields back ("DECCA" and the role included).
   */
  lemma IdentAndName(line: string)
    requires RoleReadable(Tokenise(line)) && NavAidOf(Tokenise(line)).Success?
    ensures |Tokenise(line)| >= MinFields
    ensures var tokens, r := Tokenise(line), NavAidOf(Tokenise(line)).value;
      && r.ident == tokens[7]
      && r.name == Join(tokens[8..])
      && Tokenise(r.name) == tokens[8..]
  {
    var tokens := Tokenise(line);
    TokeniseWords(line);
    JoinRoundTrip(tokens[8..]);
  }

  /**
   * Field 8 equal to "DECCA" in any case, with field 9 naming a role in any
   * case, re-types the row; nothing else yields a Decca type.
   */
  lemma DeccaOverride(tokens: seq<string>)
    requires RoleReadable(tokens) && NavAidOf(tokens).Success?
    ensures TableRecord(tokens).Success? && |tokens| >= MinFields
    ensures var decca, r := Upper(tokens[8]) == "DECCA", NavAidOf(tokens).value;
      && (r.navType == DeccaMaster <==> decca && Upper(tokens[9]) == "MASTER")
      && (r.navType == DeccaRed <==> decca && Upper(tokens[9]) == "RED")
      && (r.navType == DeccaGreen <==> decca && Upper(tokens[9]) == "GREEN")
      && (r.navType == DeccaPurple <==> decca && Upper(tokens[9]) == "PURPLE")
      && (!IsDeccaRole(r.navType) ==> r.navType == TableRecord(tokens).value.navType)
  {
    var code := StoI(tokens[0]).value;
    assert !IsDeccaRole(TableType(code));
  }

  /** A Decca row whose field 9 is a channel code rather than a role. */
  const DeccaChannelRow: seq<string> :=
    ["2", "48.6", "-1.6", "0", "0", "0", "0", "LFG", "DECCA", "7B", "CHERBOURG", "CHAIN"]

  lemma DeccaChannelRowTable()
    ensures TableRecord(DeccaChannelRow) ==
      Success(NavAid(Ndb, "48.6", "-1.6", 0, 0, 0, 0, "LFG", "DECCA 7B CHERBOURG CHAIN", true))
  {
    var tokens := DeccaChannelRow;
    assert StoI("2") == Some(2) by { StoIRoundTrip(2, ""); assert FormatInt(2) + "" == "2"; }
    assert StoI("0") == Some(0) by { StoIRoundTrip(0, ""); assert FormatInt(0) + "" == "0"; }
    assert StofAccepts("48.6") && StofAccepts("-1.6");
    assert Join(tokens[8..]) == "DECCA 7B CHERBOURG CHAIN" by {
      var name := ["DECCA", "7B", "CHERBOURG", "CHAIN"];
      assert tokens[8..] == name;
      assert name[..3][..2][..1] == ["DECCA"];
      assert Join(name[..3][..2]) == "DECCA 7B";
      assert Join(name[..3]) == "DECCA 7B CHERBOURG";
    }
  }

  /**
   * Such a row keeps its table type and its whole tail, "DECCA" included, as
   * name.
   */
  lemma DeccaChannelRowKeepsTableType()
    ensures RoleReadable(DeccaChannelRow)
    ensures NavAidOf(DeccaChannelRow) ==
      Success(NavAid(Ndb, "48.6", "-1.6", 0, 0, 0, 0, "LFG", "DECCA 7B CHERBOURG CHAIN", true))
  {
    DeccaChannelRowTable();
    assert Upper("DECCA") == "DECCA";
    assert Upper("7B") == "7B";
  }

  // ---------------------------------------------------------------------
  // The file reader

  /** The lines before the first "99". */
  function UpToTerminator(lines: seq<string>): (data: seq<string>)
    ensures |data| <= |lines|
  {
    if lines == [] || lines[0] == "99" then [] else [lines[0]] + UpToTerminator(lines[1..])
  }

  /** The data are a prefix of the lines, free of "99", and end where a "99" line or the input ends. */
  lemma {:induction false} UpToTerminatorSpec(lines: seq<string>)
    ensures UpToTerminator(lines) == lines[..|UpToTerminator(lines)|]
    ensures forall k :: 0 <= k < |UpToTerminator(lines)| ==> UpToTerminator(lines)[k] != "99"
    ensures |UpToTerminator(lines)| < |lines| ==> lines[|UpToTerminator(lines)|] == "99"
  {
    if lines != [] && lines[0] != "99" {
      UpToTerminatorSpec(lines[1..]);
    }
  }

  /** The rows the reader hands to the constructor: after the two header lines, up to the first "99". */
  function DataLines(lines: seq<string>): seq<string>
  {
    if |lines| < 2 then [] else UpToTerminator(lines[2..])
  }

  /** Every row meets what the constructor demands of it. */
  predicate AllReadable(rows: seq<string>)
  {
    rows == [] || (RoleReadable(Tokenise(rows[0])) && AllReadable(rows[1..]))
  }

  /** What one row contributes: its record when it is non-empty and parses, nothing otherwise. */
  function RowRecords(row: string): seq<NavAid>
    requires RoleReadable(Tokenise(row))
  {
    if |row| > 0 && NavAidOf(Tokenise(row)).Success? then [NavAidOf(Tokenise(row)).value] else []
  }

  /** The records of `rows`, in row order. */
  function Parsed(rows: seq<string>): seq<NavAid>
    requires AllReadable(rows)
  {
    if rows == [] then [] else RowRecords(rows[0]) + Parsed(rows[1..])
  }

  /** Every data row from index `i` on, up to the first "99", meets what the constructor demands of it. */
  predicate RowsReadableFrom(lines: seq<string>, i: nat)
    decreases |lines| - i
  {
    i < |lines| && lines[i] != "99" ==> RoleReadable(Tokenise(lines[i])) && RowsReadableFrom(lines, i + 1)
  }

  /** The records of the rows from index `i` on, up to the first "99". */
  function ParsedFrom(lines: seq<string>, i: nat): seq<NavAid>
    requires RowsReadableFrom(lines, i)
    decreases |lines| - i
  {
    if i < |lines| && lines[i] != "99" then RowRecords(lines[i]) + ParsedFrom(lines, i + 1) else []
  }

  /** One pass of the reader's loop body: the records of row `i`, and the rows after it. */
  method ReadRow(lines: seq<string>, i: nat) returns (records: seq<NavAid>)
    requires i < |lines| && lines[i] != "99" && RowsReadableFrom(lines, i)
    ensures RowsReadableFrom(lines, i + 1)
    ensures ParsedFrom(lines, i) == records + ParsedFrom(lines, i + 1)
  {
    var line := lines[i];
    records := [];
    if |line| > 0 {
      var r := ParseNavAid(line);
      if r.Success? {
        records := [r.value];
      }
    }
  }

  /**
   * ParseEarthNavDat over the lines of the file: skip two header lines, then
   * keep the record of every non-empty row that parses, until a "99" line.
   */
  method ParseEarthNavDat(lines: seq<string>) returns (navaids: seq<NavAid>)
    requires RowsReadableFrom(lines, 2)
    ensures navaids == ParsedFrom(lines, 2)
  {
    navaids := [];
    var i := 2;
    while i < |lines| && lines[i] != "99"
      invariant 2 <= i
      invariant RowsReadableFrom(lines, i)
      invariant ParsedFrom(lines, 2) == navaids + ParsedFrom(lines, i)
      decreases |lines| - i
    {
      var records := ReadRow(lines, i);
      navaids := navaids + records;
      i := i + 1;
    }
  }

  /**
   * The reader's loop reads exactly the data rows: its index-based view of
   * the file agrees with the data lines after the header.
   */
  lemma {:induction false} ParsedFromData(lines: seq<string>, i: nat)
    requires i <= |lines|
    ensures RowsReadableFrom(lines, i) <==> AllReadable(UpToTerminator(lines[i..]))
    ensures RowsReadableFrom(lines, i) ==> ParsedFrom(lines, i) == Parsed(UpToTerminator(lines[i..]))
    decreases |lines| - i
  {
    if i < |lines| && lines[i] != "99" {
      assert lines[i..][1..] == lines[i + 1..];
      var rest := UpToTerminator(lines[i + 1..]);
      assert UpToTerminator(lines[i..]) == [lines[i]] + rest;
      assert ([lines[i]] + rest)[1..] == rest;
      ParsedFromData(lines, i + 1);
    }
  }

  /** The reader's result is the records of the data lines. */
  lemma ReaderReadsDataLines(lines: seq<string>)
    ensures RowsReadableFrom(lines, 2) <==> AllReadable(DataLines(lines))
    ensures RowsReadableFrom(lines, 2) ==> ParsedFrom(lines, 2) == Parsed(DataLines(lines))
  {
    if |lines| >= 2 {
      ParsedFromData(lines, 2);
    }
  }

  // ---------------------------------------------------------------------
  // Properties of the reader

  /** Rows are independent: a failing row never stops the rows after it. */
  lemma {:induction false} ParsedAppend(a: seq<string>, b: seq<string>)
    requires AllReadable(a) && AllReadable(b)
    ensures AllReadable(a + b)
    ensures Parsed(a + b) == Parsed(a) + Parsed(b)
  {
    if a == [] {
      assert a + b == b;
    } else {
      assert (a + b)[0] == a[0];
      assert (a + b)[1..] == a[1..] + b;
      ParsedAppend(a[1..], b);
    }
  }

  /** Each row yields at most one record. */
  lemma {:induction false} ParsedBound(rows: seq<string>)
    requires AllReadable(rows)
    ensures |Parsed(rows)| <= |rows|
  {
    if rows != [] {
      ParsedBound(rows[1..]);
    }
  }

  lemma EmptyRowNoRecord()
    ensures AllReadable([""]) && Parsed([""]) == []
  {
    assert Tokenise("") == [];
    assert [""][1..] == [];
  }

  /** An empty row, wherever it stands among the data rows, adds no record. */
  lemma EmptyRowSkipped(before: seq<string>, after: seq<string>)
    requires AllReadable(before) && AllReadable(after)
    ensures AllReadable(before + [""] + after) && AllReadable(before + after)
    ensures Parsed(before + [""] + after) == Parsed(before + after)
  {
    var withEmpty := before + [""];
    assert AllReadable(withEmpty) && Parsed(withEmpty) == Parsed(before) by {
      EmptyRowNoRecord();
      ParsedAppend(before, [""]);
    }
    assert AllReadable(withEmpty + after) && Parsed(withEmpty + after) == Parsed(before) + Parsed(after) by {
      ParsedAppend(withEmpty, after);
    }
    ParsedAppend(before, after);
  }

  lemma {:induction false} UpToTerminatorStops(body: seq<string>, rest: seq<string>)
    ensures UpToTerminator(body + ["99"] + rest) == UpToTerminator(body)
  {
    if body == [] {
    } else {
      assert (body + ["99"] + rest)[1..] == body[1..] + ["99"] + rest;
      UpToTerminatorStops(body[1..], rest);
    }
  }

  /**
   * The header lines are never parsed, and no line after the first "99" is
   * looked at.
   */
  lemma TerminatorEndsData(header: seq<string>, body: seq<string>, rest: seq<string>)
    requires |header| == 2
    ensures DataLines(header + body + ["99"] + rest) == UpToTerminator(body)
  {
    assert (header + body + ["99"] + rest)[2..] == body + ["99"] + rest;
    UpToTerminatorStops(body, rest);
  }
}
