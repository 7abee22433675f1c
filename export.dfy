/**
 * The export of service records to PDF and Excel, of areas to Excel and of
 * a GPS route to GPX.
 *
 * Only what the exporter decides is modelled: the rows and cells written,
 * the cut of long descriptions, where each PDF row lands on which page, the
 * GPX text line by line and the file names. The PDF and spreadsheet
 * libraries, the browser download and the locale formatting of dates and
 * numbers are outside; the formatters are parameters.
 */
module Export {
  import opened Common
  import opened Strings
  import opened Domain

  // ---------------------------------------------------------------- PDF

  /** The longest description shown in a PDF row before it is cut. */
  const DescriptionWidth: nat := 50

  /** `popis.substring(0, 50) + (popis.length > 50 ? '...' : '')`. */
  function Cut(popis: string): (r: string)
    ensures |popis| <= DescriptionWidth ==> r == popis
    ensures |popis| > DescriptionWidth ==> r == popis[..DescriptionWidth] + "..."
    ensures |r| <= DescriptionWidth + 3
  {
    popis[..if |popis| < DescriptionWidth then |popis| else DescriptionWidth]
      + (if |popis| > DescriptionWidth then "..." else "")
  }

  /** A cut description still starts with the description's first fifty characters. */
  lemma CutKeepsPrefix(popis: string)
    ensures var n := if |popis| < DescriptionWidth then |popis| else DescriptionWidth;
      StartsWith(Cut(popis), popis[..n])
  {
  }

  /** Cutting a cut description changes nothing: a cut one is 53 characters and ends in its own cut. */
  lemma CutIdempotent(popis: string)
    ensures Cut(Cut(popis)) == Cut(popis)
  {
    if |popis| > DescriptionWidth {
      var c := Cut(popis);
      assert c[..DescriptionWidth] == popis[..DescriptionWidth];
    }
  }

  /** The five cells of a PDF row: date, MTH with one decimal, type, cut description, technician. */
  function PdfRow(s: ServiceRecord, dateText: string -> string, fixed1: real -> string): (r: seq<string>)
    ensures |r| == 5
    ensures r[0] == dateText(s.datum) && r[1] == fixed1(s.mth) && r[2] == s.typ
    ensures r[3] == Cut(s.popis) && r[4] == s.provedlOsoba
  {
    [dateText(s.datum), fixed1(s.mth), s.typ, Cut(s.popis), s.provedlOsoba]
  }

  /** Where a row is written: the page (from 1) and the vertical position on it. */
  datatype Placement = Placement(page: nat, y: int)

  /** The first row's position, below the header and the column titles. */
  const FirstRowY: int := 65
  /** The position of a row at the top of a new page. */
  const TopY: int := 20
  /** The distance between rows. */
  const RowStep: int := 8
  /** A row that would start below this position goes to a new page. */
  const BottomY: int := 270

  /** The number of rows on the first page and on each later page. */
  const FirstPageRows: nat := 26
  const PageRows: nat := 32

  /**
   * Row `k`'s place: the first page holds 26 rows from y = 65, every later
   * page 32 rows from y = 20, all 8 apart.
   */
  function RowPlacement(k: nat): Placement
  {
    if k < FirstPageRows then Placement(1, FirstRowY + RowStep * k)
    else
      var j := k - FirstPageRows;
      Placement(2 + j / PageRows, TopY + RowStep * (j % PageRows))
  }

  /** Every row lies between the top margin and the bottom limit. */
  lemma RowsOnPage(k: nat)
    ensures TopY <= RowPlacement(k).y <= BottomY
  {
    if k >= FirstPageRows {
      var j := k - FirstPageRows;
      assert 0 <= j % PageRows < PageRows;
    }
  }

  /** Only the first 26 rows are on the first page. */
  lemma FirstPage(k: nat)
    ensures RowPlacement(k).page == 1 <==> k < FirstPageRows
  {
  }

  /** One row to the next: the same page 8 lower, or the top of the next page. */
  lemma {:induction false} NextRow(k: nat)
    ensures var p, q := RowPlacement(k), RowPlacement(k + 1);
      (q.page == p.page && q.y == p.y + RowStep) || (q.page == p.page + 1 && q.y == TopY)
  {
    if k + 1 > FirstPageRows {
      var j := k - FirstPageRows;
      var a, b := j / PageRows, j % PageRows;
      assert j == PageRows * a + b && 0 <= b < PageRows;
      if b + 1 < PageRows {
        assert j + 1 == PageRows * a + (b + 1);
        DivModUnique(j + 1, a, b + 1);
      } else {
        assert j + 1 == PageRows * (a + 1) + 0;
        DivModUnique(j + 1, a + 1, 0);
      }
    }
  }

  /** Division by the page size is determined by any quotient and remainder in range. */
  lemma DivModUnique(n: nat, q: nat, r: nat)
    requires n == PageRows * q + r && r < PageRows
    ensures n / PageRows == q && n % PageRows == r
  {
  }

  /**
   * The row loop of `exportServicesToPDF`: a row is placed at the current
   * position, after a new page when that position is below the limit, and
   * the position then moves down one row.
   */
  method PlaceRows(n: nat) returns (placed: seq<Placement>, pages: nat)
    ensures |placed| == n
    ensures forall k :: 0 <= k < n ==> placed[k] == RowPlacement(k)
    ensures pages == if n == 0 then 1 else RowPlacement(n - 1).page
  {
    placed := [];
    pages := 1;
    var y := FirstRowY;
    var i := 0;
    while i < n
      invariant 0 <= i <= n && |placed| == i
      invariant forall k :: 0 <= k < i ==> placed[k] == RowPlacement(k)
      invariant i == 0 ==> pages == 1 && y == FirstRowY
      invariant i > 0 ==> pages == RowPlacement(i - 1).page && y == RowPlacement(i - 1).y + RowStep
    {
      if i > 0 {
        NextRow(i - 1);
        RowsOnPage(i);
      }
      if y > BottomY {
        pages := pages + 1;
        y := TopY;
      }
      placed := placed + [Placement(pages, y)];
      y := y + RowStep;
      i := i + 1;
    }
  }

  /** The footer of page `i` of `count`. */
  function Footer(generated: string, i: nat, count: nat, show: nat -> string): (r: string)
    ensures EndsWith(r, "/" + show(count))
  {
    "Vygenerov\U{00E1}no: " + generated + " | Strana " + show(i) + "/" + show(count)
  }

  /** The footer is written on every page, numbered from 1 to the page count. */
  function Footers(generated: string, count: nat, show: nat -> string): (r: seq<string>)
    ensures |r| == count
    ensures forall i :: 0 <= i < count ==> r[i] == Footer(generated, i + 1, count, show)
  {
    seq(count, i requires 0 <= i < count => Footer(generated, i + 1, count, show))
  }

  // -------------------------------------------------------------- Excel

  /** A spreadsheet cell: a number or a text. */
  datatype Cell = NumCell(n: real) | TextCell(s: string)

  /** `x || ''` on a nullable number: zero and missing both give an empty text cell. */
  function NumOrBlank(x: Option<real>): (c: Cell)
    ensures c.NumCell? <==> TruthyNum(x)
    ensures c.NumCell? ==> c.n == x.value
    ensures c.TextCell? ==> c.s == ""
  {
    if TruthyNum(x) then NumCell(x.value) else TextCell("")
  }

  /** `s || ''` on a nullable string. */
  function TextOrBlank(s: Option<string>): (c: Cell)
    ensures c.TextCell?
    ensures TruthyText(s) ==> c.s == s.value
    ensures !TruthyText(s) ==> c.s == ""
  {
    TextCell(if TruthyText(s) then s.value else "")
  }

  /** The eight cells of a service row: firm, area and cost left blank when missing. */
  function ServiceRow(s: ServiceRecord, dateText: string -> string): (r: seq<Cell>)
    ensures |r| == 8
    ensures r[0] == TextCell(dateText(s.datum)) && r[1] == NumCell(s.mth)
    ensures r[2] == TextCell(s.typ) && r[3] == TextCell(s.popis) && r[4] == TextCell(s.provedlOsoba)
    ensures r[5] == TextOrBlank(s.provedlaFirma) && r[6] == TextOrBlank(s.arealNazev)
    ensures r[7] == NumOrBlank(s.naklady)
  {
    [TextCell(dateText(s.datum)), NumCell(s.mth), TextCell(s.typ), TextCell(s.popis), TextCell(s.provedlOsoba),
     TextOrBlank(s.provedlaFirma), TextOrBlank(s.arealNazev), NumOrBlank(s.naklady)]
  }

  /** The column titles of the service sheet. */
  const ServiceColumns: seq<string> := [
    "Datum", "MTH", "Typ z\U{00E1}sahu", "Popis", "Technik", "Firma", "Are\U{00E1}l", "N\U{00E1}klady (K\U{010D})"]

  /** The service sheet: three header lines, a blank row, the titles, then one row per record in order. */
  function ServiceSheet(services: seq<ServiceRecord>, model: string, serial: string, mth: string, generated: string,
                        dateText: string -> string): (r: seq<seq<Cell>>)
    ensures |r| == 5 + |services|
    ensures r[3] == []
    ensures forall i :: 0 <= i < |services| ==> r[5 + i] == ServiceRow(services[i], dateText)
  {
    [[TextCell("Servisn\U{00ED} kniha - " + model)],
     [TextCell("S/N: " + serial + " | Aktu\U{00E1}ln\U{00ED} MTH: " + mth)],
     [TextCell("Vygenerov\U{00E1}no: " + generated)],
     [],
     seq(|ServiceColumns|, i requires 0 <= i < |ServiceColumns| => TextCell(ServiceColumns[i]))]
    + seq(|services|, i requires 0 <= i < |services| => ServiceRow(services[i], dateText))
  }

  /** An area as the area export reads it. */
  datatype ExportArea = ExportArea(
    nazev: string,
    typ: string,
    plochaM2: Option<real>,
    obvodM: Option<real>,
    lat: Option<real>,
    lng: Option<real>,
    okres: Option<string>,
    kategorie: Option<string>)

  /** The eight cells of an area row; every optional field, a zero included, is left blank when falsy. */
  function AreaRow(a: ExportArea): (r: seq<Cell>)
    ensures |r| == 8 && r[0] == TextCell(a.nazev) && r[1] == TextCell(a.typ)
    ensures r[2] == NumOrBlank(a.plochaM2) && r[3] == NumOrBlank(a.obvodM)
    ensures r[4] == NumOrBlank(a.lat) && r[5] == NumOrBlank(a.lng)
    ensures r[6] == TextOrBlank(a.okres) && r[7] == TextOrBlank(a.kategorie)
  {
    [TextCell(a.nazev), TextCell(a.typ), NumOrBlank(a.plochaM2), NumOrBlank(a.obvodM),
     NumOrBlank(a.lat), NumOrBlank(a.lng), TextOrBlank(a.okres), TextOrBlank(a.kategorie)]
  }

  /** The area sheet: the titles, then one row per area in order. */
  function AreaSheet(areas: seq<ExportArea>): (r: seq<seq<Cell>>)
    ensures |r| == 1 + |areas|
    ensures forall i :: 0 <= i < |areas| ==> r[1 + i] == AreaRow(areas[i])
  {
    [[TextCell("N\U{00E1}zev"), TextCell("Typ"), TextCell("Plocha (m\U{00B2})"), TextCell("Oplocen\U{00ED} (bm)"),
      TextCell("GPS Latitude"), TextCell("GPS Longitude"), TextCell("Okres"), TextCell("Kategorie TZ")]]
    + seq(|areas|, i requires 0 <= i < |areas| => AreaRow(areas[i]))
  }

  // ---------------------------------------------------------------- GPX

  /** One point of a GPX route. */
  datatype RoutePoint = RoutePoint(lat: real, lon: real, time: Option<string>, ele: Option<real>)

  /** The four lines a point contributes: the `trkpt` element, the elevation, the time and the closing tag. */
  function PointLines(p: RoutePoint, num: real -> string): (r: seq<string>)
    ensures |r| == 4
    ensures r[0] == "      <trkpt lat=\"" + num(p.lat) + "\" lon=\"" + num(p.lon) + "\">"
    ensures r[1] == "" <==> !TruthyNum(p.ele)
    ensures r[2] == "" <==> !TruthyText(p.time)
    ensures r[3] == "      </trkpt>"
  {
    ["      <trkpt lat=\"" + num(p.lat) + "\" lon=\"" + num(p.lon) + "\">",
     if TruthyNum(p.ele) then "        <ele>" + num(p.ele.value) + "</ele>" else "",
     if TruthyText(p.time) then "        <time>" + p.time.value + "</time>" else "",
     "      </trkpt>"]
  }

  /** The lines of the points, in order. */
  function AllPointLines(points: seq<RoutePoint>, num: real -> string): (r: seq<string>)
    ensures |r| == 4 * |points|
  {
    if points == [] then [] else PointLines(points[0], num) + AllPointLines(points[1..], num)
  }

  /** Point `i`'s four lines are lines `4i` to `4i + 3`. */
  lemma {:induction false} AllPointLinesAt(points: seq<RoutePoint>, num: real -> string, i: nat)
    requires i < |points|
    ensures AllPointLines(points, num)[4 * i..4 * i + 4] == PointLines(points[i], num)
  {
    var h := PointLines(points[0], num);
    var rest := AllPointLines(points[1..], num);
    assert AllPointLines(points, num) == h + rest;
    if i == 0 {
      SliceOfAppend(h, rest, 0, 4);
    } else {
      AllPointLinesAt(points[1..], num, i - 1);
      var lo := 4 * (i - 1);
      SliceOfAppend(h, rest, lo + 4, lo + 8);
    }
  }

  /** A slice of `h + t` inside one of the two parts. */
  lemma SliceOfAppend<T>(h: seq<T>, t: seq<T>, lo: nat, hi: nat)
    requires lo <= hi <= |h| + |t|
    ensures hi <= |h| ==> (h + t)[lo..hi] == h[lo..hi]
    ensures |h| <= lo ==> (h + t)[lo..hi] == t[lo - |h|..hi - |h|]
  {
  }

  /** No line of the points holds a newline when no formatted number and no point time does. */
  lemma {:induction false} AllPointLinesOneLine(points: seq<RoutePoint>, num: real -> string)
    requires forall x :: OneLine(num(x))
    requires forall i :: 0 <= i < |points| && points[i].time.Some? ==> OneLine(points[i].time.value)
    ensures forall k :: 0 <= k < |AllPointLines(points, num)| ==> OneLine(AllPointLines(points, num)[k])
  {
    if points != [] {
      var h := PointLines(points[0], num);
      var rest := AllPointLines(points[1..], num);
      NoNewlineIn(points[0], num);
      assert forall i :: 0 <= i < |points[1..]| ==> points[1..][i] == points[i + 1];
      AllPointLinesOneLine(points[1..], num);
      var r := h + rest;
      assert AllPointLines(points, num) == r;
      forall k | 0 <= k < |r| ensures OneLine(r[k]) {
        if k < 4 {
          assert r[k] == h[k];
        } else {
          assert r[k] == rest[k - 4];
        }
      }
    }
  }

  /**
   * The lines of the point block: the points' lines, or one empty line when
   * there are no points (the template line of an empty join).
   */
  function PointBlock(points: seq<RoutePoint>, num: real -> string): (r: seq<string>)
    ensures points == [] ==> r == [""]
    ensures points != [] ==> r == AllPointLines(points, num)
  {
    if points == [] then [""] else AllPointLines(points, num)
  }

  const GpxHead: seq<string> := [
    "<?xml version=\"1.0\" encoding=\"UTF-8\"?>",
    "<gpx version=\"1.1\" creator=\"e-ManuAI\" xmlns=\"http://www.topografix.com/GPX/1/1\">",
    "  <metadata>"]

  const GpxTail: seq<string> := ["    </trkseg>", "  </trk>", "</gpx>"]

  /** The `<name>` line, for the metadata and for the track. */
  function NameLine(routeName: string): string
  {
    "    <name>" + routeName + "</name>"
  }

  /** The lines of the GPX document. */
  function GpxLines(routeName: string, points: seq<RoutePoint>, now: string, num: real -> string): (r: seq<string>)
    ensures |r| == 13 + |PointBlock(points, num)|
    ensures r[3] == NameLine(routeName) && r[8] == NameLine(routeName)
    ensures r[10..10 + |PointBlock(points, num)|] == PointBlock(points, num)
  {
    var block := PointBlock(points, num);
    var r := GpxHead + GpxMiddle(routeName, now) + block + GpxTail;
    assert r[10..10 + |block|] == block;
    r
  }

  /** The metadata and the opening of the track, between the XML head and the points. */
  function GpxMiddle(routeName: string, now: string): (r: seq<string>)
    ensures |r| == 7
  {
    [NameLine(routeName),
     "    <time>" + now + "</time>",
     "    <desc>GPS trasa exportovan\U{00E1} z e-ManuAI</desc>",
     "  </metadata>",
     "  <trk>",
     NameLine(routeName),
     "    <trkseg>"]
  }

  /** The GPX text. */
  function Gpx(routeName: string, points: seq<RoutePoint>, now: string, num: real -> string): string
  {
    Join(GpxLines(routeName, points, now, num), "\n")
  }

  /** Point `i`'s `trkpt` element is line `10 + 4i`: one element per point, in order. */
  lemma TrackPointLine(routeName: string, points: seq<RoutePoint>, now: string, num: real -> string, i: nat)
    requires i < |points|
    ensures var r := GpxLines(routeName, points, now, num);
      |r| == 13 + 4 * |points|
      && r[10 + 4 * i] == "      <trkpt lat=\"" + num(points[i].lat) + "\" lon=\"" + num(points[i].lon) + "\">"
      && (r[11 + 4 * i] == "" <==> !TruthyNum(points[i].ele))
      && (r[12 + 4 * i] == "" <==> !TruthyText(points[i].time))
  {
    var r := GpxLines(routeName, points, now, num);
    var block := PointBlock(points, num);
    var lines := PointLines(points[i], num);
    AllPointLinesAt(points, num, i);
    assert block[4 * i..4 * i + 4] == lines;
    assert r[10 + 4 * i] == block[4 * i] == lines[0];
    assert r[11 + 4 * i] == block[4 * i + 1] == lines[1];
    assert r[12 + 4 * i] == block[4 * i + 2] == lines[2];
  }

  /** The name is written verbatim: it is recovered from its line. */
  lemma NameVerbatim(routeName: string)
    ensures var l := NameLine(routeName); l[10..|l| - 7] == routeName
  {
  }

  /** A line holds no newline when the parts put into it hold none. */
  predicate OneLine(s: string)
  {
    '\n' !in s
  }

  /**
   * When the formatted numbers and the point times hold no newline, the
   * point block's text splits back into its lines: four per point.
   */
  lemma PointBlockSplitsIntoLines(points: seq<RoutePoint>, num: real -> string)
    requires forall x :: OneLine(num(x))
    requires forall i :: 0 <= i < |points| && points[i].time.Some? ==> OneLine(points[i].time.value)
    ensures Split(Join(PointBlock(points, num), "\n"), '\n') == PointBlock(points, num)
  {
    var block := PointBlock(points, num);
    AllPointLinesOneLine(points, num);
    assert forall k :: 0 <= k < |block| ==> '\n' !in block[k];
    SplitJoin(block, '\n');
  }

  lemma NoNewlineIn(p: RoutePoint, num: real -> string)
    requires forall x :: OneLine(num(x))
    requires p.time.Some? ==> OneLine(p.time.value)
    ensures forall j :: 0 <= j < 4 ==> '\n' !in PointLines(p, num)[j]
  {
    assert OneLine(num(p.lat)) && OneLine(num(p.lon));
    if p.ele.Some? {
      var e: real := p.ele.value;
      assert OneLine(num(e));
    }
  }

  /** `replace(/\s+/g, '-')`: each run of white space becomes one dash; `inRun` says a run has just been replaced. */
  function DashRuns(s: string, inRun: bool): (r: string)
    ensures forall i :: 0 <= i < |r| ==> !IsSpace(r[i])
  {
    if s == [] then ""
    else if IsSpace(s[0]) then (if inRun then "" else "-") + DashRuns(s[1..], true)
    else [s[0]] + DashRuns(s[1..], false)
  }

  /** A name without white space is kept as it is. */
  lemma {:induction false} DashRunsKeeps(s: string, inRun: bool)
    requires forall i :: 0 <= i < |s| ==> !IsSpace(s[i])
    ensures DashRuns(s, inRun) == s
  {
    if s != [] {
      DashRunsKeeps(s[1..], false);
    }
  }

  /** Replacing white space a second time changes nothing. */
  lemma DashRunsIdempotent(s: string)
    ensures DashRuns(DashRuns(s, false), false) == DashRuns(s, false)
  {
    DashRunsKeeps(DashRuns(s, false), false);
  }

  /** The replacement of a concatenation: the second part starts in the run state the first part ends in. */
  lemma {:induction false} DashRunsConcat(a: string, x: string, inRun: bool)
    ensures DashRuns(a + x, inRun) == DashRuns(a, inRun) + DashRuns(x, if a == [] then inRun else IsSpace(a[|a| - 1]))
  {
    if a == [] {
      assert a + x == x;
    } else {
      var next := IsSpace(a[0]);
      var head := if next then (if inRun then "" else "-") else [a[0]];
      var tail := a[1..];
      assert (a + x)[0] == a[0] && (a + x)[1..] == tail + x;
      assert DashRuns(a + x, inRun) == head + DashRuns(tail + x, next);
      assert DashRuns(a, inRun) == head + DashRuns(tail, next);
      DashRunsConcat(tail, x, next);
      var last := if tail == [] then next else IsSpace(tail[|tail| - 1]);
      assert last == IsSpace(a[|a| - 1]);
      var p, q := DashRuns(tail, next), DashRuns(x, last);
      assert DashRuns(tail + x, next) == p + q;
      ConcatAssoc(head, p, q);
    }
  }

  /** A non-empty run of white space alone becomes one dash, or nothing when a run was already under way. */
  lemma {:induction false} DashRunsSpaces(w: string, inRun: bool)
    requires forall i :: 0 <= i < |w| ==> IsSpace(w[i])
    ensures w != [] ==> DashRuns(w, inRun) == (if inRun then "" else "-")
    ensures w == [] ==> DashRuns(w, inRun) == ""
  {
    if w != [] {
      DashRunsSpaces(w[1..], true);
    }
  }

  /**
   * One maximal run of white space between two parts becomes exactly one dash: together with
   * `DashRunsKeeps` for text without white space, this fixes the result for every name.
   */
  lemma DashRunsOneDashPerRun(a: string, w: string, b: string)
    requires a == [] || !IsSpace(a[|a| - 1])
    requires w != [] && forall i :: 0 <= i < |w| ==> IsSpace(w[i])
    requires b == [] || !IsSpace(b[0])
    ensures DashRuns(a + w + b, false) == DashRuns(a, false) + "-" + DashRuns(b, false)
  {
    ConcatAssoc(a, w, b);
    DashRunsConcat(a, w + b, false);
    DashRunsConcat(w, b, false);
    DashRunsSpaces(w, false);
    assert IsSpace(w[|w| - 1]);
    var rest := DashRuns(b, false);
    assert DashRuns(b, true) == rest;
    assert DashRuns(w + b, false) == "-" + rest;
    ConcatAssoc(DashRuns(a, false), "-", rest);
  }

  /** A character other than white space or a dash. */
  predicate PlainChar(c: char)
  {
    !IsSpace(c) && c != '-'
  }

  /** The other characters survive, in order. */
  lemma {:induction false} DashRunsKeepsPlain(s: string, inRun: bool)
    ensures Filter(DashRuns(s, inRun), PlainChar) == Filter(s, PlainChar)
  {
    if s != [] {
      DashRunsKeepsPlain(s[1..], IsSpace(s[0]));
      var rest := DashRuns(s[1..], IsSpace(s[0]));
      if IsSpace(s[0]) {
        var d := if inRun then "" else "-";
        FilterAppend(d, rest, PlainChar);
        assert Filter(d, PlainChar) == [] by {
          if d != "" {
            assert d[1..] == [];
          }
        }
      } else {
        FilterAppend([s[0]], rest, PlainChar);
        assert [s[0]][1..] == [];
      }
    }
  }

  /** `toISOString().split('T')[0]`: the date part of a timestamp. */
  function DatePart(iso: string): (r: string)
    ensures 'T' !in r
    ensures StartsWith(iso, r)
    ensures 'T' !in iso ==> r == iso
    ensures 'T' in iso ==> r + "T" == iso[..|r| + 1]
  {
    var k := IndexOf(iso, 'T');
    IndexOfFirst(iso, 'T');
    IndexOfAbsent(iso, 'T');
    if k == -1 then iso
    else
      assert forall j :: 0 <= j < k ==> iso[..k][j] != 'T';
      iso[..k]
  }

  /** `DatePart` is what the first split at 'T' gives. */
  lemma DatePartIsSplit(iso: string)
    ensures DatePart(iso) == Split(iso, 'T')[0]
  {
  }

  /** The GPX file name: the name with white-space runs dashed, the date and the extension. */
  function GpxFileName(routeName: string, nowIso: string): (r: string)
    ensures EndsWith(r, ".gpx")
    ensures StartsWith(r, DashRuns(routeName, false) + "-" + DatePart(nowIso))
  {
    var r := DashRuns(routeName, false) + "-" + DatePart(nowIso) + ".gpx";
    assert r[|r| - 4..] == ".gpx";
    r
  }

  /** The PDF and spreadsheet file names of the service book. */
  function ServiceBookFileName(serial: string, nowIso: string, extension: string): (r: string)
    ensures StartsWith(r, "servisni-kniha-" + serial + "-")
    ensures EndsWith(r, "." + extension)
  {
    var r := "servisni-kniha-" + serial + "-" + DatePart(nowIso) + "." + extension;
    assert r[|r| - |"." + extension|..] == "." + extension;
    r
  }
}
