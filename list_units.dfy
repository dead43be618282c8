/**
 * `bluechictl list-units`: fetch the units of one node or of all nodes over
 * D-Bus into a reference-counted list, and print them as a table whose
 * columns are as wide as their widest entry.
 */
module ListUnits {
  import opened Options
  import opened Seqs

  /** A unit as the list holds it: the node it runs on, its name and its states. */
  datatype UnitInfo = UnitInfo(node: string, id: string, activeState: string, subState: string)

  /** One call of the parse callback: its return code and the unit it filled in. */
  datatype Parse = Parse(code: int, info: UnitInfo)

  /**
   * The reply to a `ListUnits` call: the result of `sd_bus_call_method`,
   * that of entering the array, and what the parse callback returns on
   * each successive call. When the sequence runs out, the callback has
   * reached the end of the array, where it returns 0.
   */
  datatype Reply = Reply(callResult: int, enterResult: int, parses: seq<Parse>)

  /**
   * The two `ListUnits` calls: on the controller object for the units of
   * all nodes, or on a node's own object.
   */
  datatype Query = Controller | Node(objectPath: string)

  /** What `assemble_object_path_string` returns: a code, and the path when the code is not negative. */
  datatype Assembled = Assembled(code: int, path: string)

  /** What a fetch leaves behind: its return code and the units it appended, in order. */
  datatype Fetched = Fetched(code: int, units: seq<UnitInfo>)

  /** A return code and the lines printed on standard output, each without its `'\n'`. */
  datatype Outcome = Outcome(code: int, output: seq<string>)

  // ---------------------------------------------------------------------
  // Fetching

  /** `info->node = strdup(node_name)` when a node name is given. */
  function Stamp(info: UnitInfo, nodeName: Option<string>): UnitInfo
  {
    match nodeName
    case None => info
    case Some(n) => info.(node := n)
  }

  /**
   * The parse loop of `fetch_unit_list` over the remaining parse results:
   * append each parsed unit, stop with 0 at the first result of 0 and with
   * the first negative result unchanged.
   */
  function ParseLoop(parses: seq<Parse>, nodeName: Option<string>): Fetched
  {
    if |parses| == 0 then Fetched(0, [])
    else if parses[0].code < 0 then Fetched(parses[0].code, [])
    else if parses[0].code == 0 then Fetched(0, [])
    else
      var rest := ParseLoop(parses[1..], nodeName);
      Fetched(rest.code, [Stamp(parses[0].info, nodeName)] + rest.units)
  }

  /** `fetch_unit_list` on a reply: a failed call or a failed container entry stops it before the loop. */
  function Fetch(reply: Reply, nodeName: Option<string>): Fetched
  {
    if reply.callResult < 0 then Fetched(reply.callResult, [])
    else if reply.enterResult < 0 then Fetched(reply.enterResult, [])
    else ParseLoop(reply.parses, nodeName)
  }

  /** The index of the first parse result that is not positive, or the length when there is none. */
  function EndIndex(parses: seq<Parse>): (k: nat)
    ensures k <= |parses|
    ensures forall j :: 0 <= j < k ==> parses[j].code > 0
    ensures k < |parses| ==> parses[k].code <= 0
  {
    if |parses| == 0 || parses[0].code <= 0 then 0 else 1 + EndIndex(parses[1..])
  }

  /** The units of `infos` as the loop stores them. */
  function Stamped(infos: seq<UnitInfo>, nodeName: Option<string>): (us: seq<UnitInfo>)
    ensures |us| == |infos|
    ensures forall i :: 0 <= i < |us| ==> us[i] == Stamp(infos[i], nodeName)
  {
    if |infos| == 0 then [] else [Stamp(infos[0], nodeName)] + Stamped(infos[1..], nodeName)
  }

  /** The units the parser produced, in order. */
  function Infos(parses: seq<Parse>): (infos: seq<UnitInfo>)
    ensures |infos| == |parses|
    ensures forall i :: 0 <= i < |parses| ==> infos[i] == parses[i].info
  {
    if |parses| == 0 then [] else [parses[0].info] + Infos(parses[1..])
  }

  /**
   * The parse loop, stated without recursion: it appends the units parsed
   * before the first result that is not positive.
   */
  lemma {:induction false} ParseLoopUnits(parses: seq<Parse>, nodeName: Option<string>)
    ensures ParseLoop(parses, nodeName).units == Stamped(Infos(parses[..EndIndex(parses)]), nodeName)
    decreases |parses|
  {
    if |parses| > 0 && parses[0].code > 0 {
      ParseLoopUnits(parses[1..], nodeName);
      var k := EndIndex(parses);
      assert parses[..k] == [parses[0]] + parses[1..][..k - 1];
      var infos := Infos(parses[..k]);
      assert infos[1..] == Infos(parses[1..][..k - 1]);
    }
  }

  /**
   * The parse loop returns the first result that is not positive, or 0
   * when the array ends first; so it never returns a positive code.
   */
  lemma {:induction false} ParseLoopCode(parses: seq<Parse>, nodeName: Option<string>)
    ensures var k := EndIndex(parses);
            ParseLoop(parses, nodeName).code == (if k < |parses| then parses[k].code else 0)
    ensures ParseLoop(parses, nodeName).code <= 0
    decreases |parses|
  {
    if |parses| > 0 && parses[0].code > 0 {
      ParseLoopCode(parses[1..], nodeName);
    }
  }

  /** With a node name, every unit the fetch appends runs on that node. */
  lemma FetchStampsNode(reply: Reply, n: string)
    ensures forall u :: u in Fetch(reply, Some(n)).units ==> u.node == n
  {
    if reply.callResult >= 0 && reply.enterResult >= 0 {
      ParseLoopUnits(reply.parses, Some(n));
    }
  }

  /** A fetch fails exactly with the first failing step's code, and succeeds with 0. */
  lemma FetchCode(reply: Reply, nodeName: Option<string>)
    ensures reply.callResult < 0 ==> Fetch(reply, nodeName) == Fetched(reply.callResult, [])
    ensures reply.callResult >= 0 && reply.enterResult < 0 ==> Fetch(reply, nodeName) == Fetched(reply.enterResult, [])
    ensures Fetch(reply, nodeName).code <= 0
  {
    if reply.callResult >= 0 && reply.enterResult >= 0 {
      ParseLoopCode(reply.parses, nodeName);
    }
  }

  /** The unit-list container: a reference count and the units, in list order. */
  class UnitList {
    var refCount: int
    var units: seq<UnitInfo>
    /** Whether the list has been released with `free`. */
    var freed: bool

    /** `new_unit_list`: one reference, no units. */
    constructor ()
      ensures refCount == 1 && units == [] && !freed
    {
      refCount := 1;
      units := [];
      freed := false;
    }

    /** `LIST_APPEND`: the unit goes at the end of the list. */
    method Append(info: UnitInfo)
      requires !freed
      modifies this
      ensures units == old(units) + [info] && refCount == old(refCount) && !freed
    {
      units := units + [info];
    }

    /**
     * `unit_list_unref`: drop one reference. When none is left, unref
     * every unit, in list order, and free the list; otherwise nothing else
     * changes. `released` is the units unreferenced.
     */
    method Unref() returns (released: seq<UnitInfo>)
      requires !freed
      modifies this
      ensures refCount == old(refCount) - 1
      ensures freed <==> refCount == 0
      ensures freed ==> released == old(units)
      ensures !freed ==> released == [] && units == old(units)
    {
      refCount := refCount - 1;
      if refCount != 0 {
        return [];
      }
      released := [];
      var i := 0;
      while i < |units|
        invariant 0 <= i <= |units| && released == units[..i]
      {
        released := released + [units[i]];
        i := i + 1;
      }
      freed := true;
    }
  }

  /**
   * `fetch_unit_list`: issue the call, enter the array, then append the
   * parsed units until the parser returns 0 or an error. Units appended
   * before an error stay in the list.
   */
  method FetchUnitList(reply: Reply, nodeName: Option<string>, list: UnitList) returns (r: int)
    requires !list.freed
    modifies list
    ensures !list.freed && list.refCount == old(list.refCount)
    ensures r == Fetch(reply, nodeName).code
    ensures list.units == old(list.units) + Fetch(reply, nodeName).units
  {
    r := reply.callResult;
    if r < 0 {
      return;
    }
    r := reply.enterResult;
    if r < 0 {
      return;
    }
    var parses := reply.parses;
    ghost var total := ParseLoop(parses, nodeName);
    ghost var appended: seq<UnitInfo> := [];
    var i := 0;
    assert parses[0..] == parses;
    while true
      invariant 0 <= i <= |parses|
      invariant !list.freed && list.refCount == old(list.refCount)
      invariant list.units == old(list.units) + appended
      invariant total.code == ParseLoop(parses[i..], nodeName).code
      invariant total.units == appended + ParseLoop(parses[i..], nodeName).units
      decreases |parses| - i
    {
      ParseLoopAt(parses, i, nodeName);
      var info := if i < |parses| then parses[i].info else UnitInfo([], [], [], []);
      r := if i < |parses| then parses[i].code else 0;
      if r < 0 {
        assert appended + [] == appended;
        return;
      }
      if r == 0 {
        assert appended + [] == appended;
        break;
      }
      if nodeName.Some? {
        info := info.(node := nodeName.value);
      }
      list.Append(info);
      AppendAssoc(appended, [info], ParseLoop(parses[i + 1..], nodeName).units);
      appended := appended + [info];
      i := i + 1;
    }
  }

  /** One turn of the parse loop at position `i`. */
  lemma ParseLoopAt(parses: seq<Parse>, i: nat, nodeName: Option<string>)
    requires i <= |parses|
    ensures var here := ParseLoop(parses[i..], nodeName);
            && (i == |parses| ==> here == Fetched(0, []))
            && (i < |parses| && parses[i].code <= 0 ==> here == Fetched(parses[i].code, []))
            && (i < |parses| && parses[i].code > 0 ==>
                  here == Fetched(ParseLoop(parses[i + 1..], nodeName).code,
                                  [Stamp(parses[i].info, nodeName)] + ParseLoop(parses[i + 1..], nodeName).units))
  {
    if i < |parses| {
      assert parses[i..][1..] == parses[i + 1..];
    }
  }

  // ---------------------------------------------------------------------
  // Printing

  /** The widths of the four columns. */
  datatype Widths = Widths(node: nat, id: nat, active: nat, sub: nat)

  /** The header row; its titles are the initial widths. */
  const Titles := UnitInfo("NODE", "ID", "ACTIVE", "SUB")

  const ColSep := " | "

  function Max(a: nat, b: nat): (m: nat)
    ensures m >= a && m >= b && (m == a || m == b)
  {
    if a >= b then a else b
  }

  /** The widths that fit the titles alone. */
  function TitleWidths(): Widths
  {
    Widths(|Titles.node|, |Titles.id|, |Titles.activeState|, |Titles.subState|)
  }

  /** Widen each column to fit one more unit (`umaxl`). */
  function Widen(ws: Widths, u: UnitInfo): Widths
  {
    Widths(Max(ws.node, |u.node|), Max(ws.id, |u.id|), Max(ws.active, |u.activeState|), Max(ws.sub, |u.subState|))
  }

  /** The column widths for `units`: the titles widened by every unit in turn. */
  function WidthsOf(units: seq<UnitInfo>): Widths
  {
    if |units| == 0 then TitleWidths() else Widen(WidthsOf(units[..|units| - 1]), units[|units| - 1])
  }

  /** Every field of `u` fits its column. */
  predicate Fits(u: UnitInfo, ws: Widths)
  {
    |u.node| <= ws.node && |u.id| <= ws.id && |u.activeState| <= ws.active && |u.subState| <= ws.sub
  }

  /**
   * Each width is at least its title and at least the field of every unit,
   * and is attained: it equals the title's length or some unit's field.
   */
  lemma {:induction false} WidthsAreMaxima(units: seq<UnitInfo>)
    ensures Fits(Titles, WidthsOf(units))
    ensures forall i :: 0 <= i < |units| ==> Fits(units[i], WidthsOf(units))
    ensures var ws := WidthsOf(units);
            && (ws.node == |Titles.node| || exists i :: 0 <= i < |units| && ws.node == |units[i].node|)
            && (ws.id == |Titles.id| || exists i :: 0 <= i < |units| && ws.id == |units[i].id|)
            && (ws.active == |Titles.activeState| || exists i :: 0 <= i < |units| && ws.active == |units[i].activeState|)
            && (ws.sub == |Titles.subState| || exists i :: 0 <= i < |units| && ws.sub == |units[i].subState|)
    decreases |units|
  {
    if |units| > 0 {
      var n := |units| - 1;
      var front := units[..n];
      WidthsAreMaxima(front);
      assert forall i :: 0 <= i < n ==> units[i] == front[i];
    }
  }

  /** The length of every printed row: the four widths and three separators. */
  function LineLength(ws: Widths): nat
  {
    ws.node + |ColSep| + ws.id + |ColSep| + ws.active + |ColSep| + ws.sub
  }

  /** `%-*s`: `s` left-justified in a field of width `w`; a longer `s` is not cut. */
  function Pad(s: string, w: nat): string
  {
    if |s| < w then s + seq(w - |s|, _ => ' ') else s
  }

  /** A padded field starts with the text and is filled with blanks up to the width. */
  lemma PadSpec(s: string, w: nat)
    ensures |Pad(s, w)| == Max(|s|, w)
    ensures Pad(s, w)[..|s|] == s
    ensures forall i :: |s| <= i < |Pad(s, w)| ==> Pad(s, w)[i] == ' '
  {
  }

  /** One line of the table, as the format string built by `snprintf` renders it. */
  function Row(u: UnitInfo, ws: Widths): string
  {
    Pad(u.node, ws.node) + ColSep + Pad(u.id, ws.id) + ColSep + Pad(u.activeState, ws.active) + ColSep + Pad(u.subState, ws.sub)
  }

  /** A row whose fields fit has exactly the line length. */
  lemma RowLayout(u: UnitInfo, ws: Widths)
    requires Fits(u, ws)
    ensures |Row(u, ws)| == LineLength(ws)
  {
    PadSpec(u.node, ws.node);
    PadSpec(u.id, ws.id);
    PadSpec(u.activeState, ws.active);
    PadSpec(u.subState, ws.sub);
  }

  /** `memset(sep_line, '=', n)`. */
  function Separator(n: nat): (line: string)
    ensures |line| == n && forall i :: 0 <= i < n ==> line[i] == '='
  {
    seq(n, _ => '=')
  }

  /** The unit is printed: there is no filter, or its id matches the glob. */
  predicate Keep(u: UnitInfo, globFilter: Option<string>, matchGlob: (string, string) -> bool)
  {
    globFilter.None? || matchGlob(u.id, globFilter.value)
  }

  /** The units that pass the filter, in list order. */
  function Selected(units: seq<UnitInfo>, globFilter: Option<string>, matchGlob: (string, string) -> bool): seq<UnitInfo>
  {
    if |units| == 0 then []
    else
      var front := Selected(units[..|units| - 1], globFilter, matchGlob);
      if Keep(units[|units| - 1], globFilter, matchGlob) then front + [units[|units| - 1]] else front
  }

  /**
   * The filter keeps order: selecting from two lists one after the other
   * is selecting from their concatenation.
   */
  lemma {:induction false} SelectedAppend(a: seq<UnitInfo>, b: seq<UnitInfo>, globFilter: Option<string>, matchGlob: (string, string) -> bool)
    ensures Selected(a + b, globFilter, matchGlob) == Selected(a, globFilter, matchGlob) + Selected(b, globFilter, matchGlob)
    decreases |b|
  {
    if |b| == 0 {
      assert a + b == a;
    } else {
      var n := |b| - 1;
      assert (a + b)[..|a + b| - 1] == a + b[..n];
      SelectedAppend(a, b[..n], globFilter, matchGlob);
    }
  }

  /** A single unit is kept exactly when it passes the filter. */
  lemma SelectedSingle(x: UnitInfo, globFilter: Option<string>, matchGlob: (string, string) -> bool)
    ensures Selected([x], globFilter, matchGlob) == (if Keep(x, globFilter, matchGlob) then [x] else [])
  {
    assert [x][..0] == [];
  }

  /** A unit is selected exactly when it is in the list and passes the filter. */
  lemma {:induction false} SelectedMembers(units: seq<UnitInfo>, globFilter: Option<string>, matchGlob: (string, string) -> bool)
    ensures forall x :: x in Selected(units, globFilter, matchGlob) <==> x in units && Keep(x, globFilter, matchGlob)
    decreases |units|
  {
    if |units| > 0 {
      var n := |units| - 1;
      SelectedMembers(units[..n], globFilter, matchGlob);
      assert units == units[..n] + [units[n]];
      forall x
        ensures x in units <==> x in units[..n] || x == units[n]
      {
        if x in units {
          var i :| 0 <= i < |units| && units[i] == x;
          if i < n {
            assert units[..n][i] == x;
          }
        }
      }
    }
  }

  /** The data rows for `units`. */
  function Rows(units: seq<UnitInfo>, ws: Widths): seq<string>
  {
    if |units| == 0 then [] else Rows(units[..|units| - 1], ws) + [Row(units[|units| - 1], ws)]
  }

  /** There is a row per unit, in the same order. */
  lemma {:induction false} RowsIndex(units: seq<UnitInfo>, ws: Widths)
    ensures |Rows(units, ws)| == |units|
    ensures forall i :: 0 <= i < |units| ==> Rows(units, ws)[i] == Row(units[i], ws)
    decreases |units|
  {
    if |units| > 0 {
      var n := |units| - 1;
      RowsIndex(units[..n], ws);
      assert forall i :: 0 <= i < n ==> units[..n][i] == units[i];
    }
  }

  /** The table `print_unit_list_simple` prints: header, separator, then a row per selected unit. */
  function Table(units: seq<UnitInfo>, globFilter: Option<string>, matchGlob: (string, string) -> bool): seq<string>
  {
    var ws := WidthsOf(units);
    [Row(Titles, ws), Separator(LineLength(ws))] + Rows(Selected(units, globFilter, matchGlob), ws)
  }

  /**
   * Every line of the table has the same length, the sum of the widths
   * and the separators, because the widths are taken over all units and
   * the selected ones are among them.
   */
  lemma TableLines(units: seq<UnitInfo>, globFilter: Option<string>, matchGlob: (string, string) -> bool)
    ensures forall i :: 0 <= i < |Table(units, globFilter, matchGlob)| ==>
              |Table(units, globFilter, matchGlob)[i]| == LineLength(WidthsOf(units))
  {
    var ws := WidthsOf(units);
    var sel := Selected(units, globFilter, matchGlob);
    var t := Table(units, globFilter, matchGlob);
    WidthsAreMaxima(units);
    SelectedMembers(units, globFilter, matchGlob);
    RowLayout(Titles, ws);
    RowsIndex(sel, ws);
    forall i | 0 <= i < |t|
      ensures |t[i]| == LineLength(ws)
    {
      if i >= 2 {
        var x := sel[i - 2];
        assert x in sel;
        var j :| 0 <= j < |units| && units[j] == x;
        RowLayout(x, ws);
      }
    }
  }

  /** The first loop of `print_unit_list_simple`: widen the title widths by every unit. */
  method ColumnWidths(units: seq<UnitInfo>) returns (ws: Widths)
    ensures ws == WidthsOf(units)
  {
    ws := TitleWidths();
    var i := 0;
    while i < |units|
      invariant 0 <= i <= |units| && ws == WidthsOf(units[..i])
    {
      assert units[..i + 1][..i] == units[..i];
      ws := Widen(ws, units[i]);
      i := i + 1;
    }
    assert units[..i] == units;
  }

  /**
   * `print_unit_list_simple`: widen the columns over every unit of the
   * list, print the header and a line of `'='` as long as a row, then the
   * row of each unit that passes the filter, in list order.
   */
  method PrintUnitListSimple(list: UnitList, globFilter: Option<string>, matchGlob: (string, string) -> bool)
      returns (out: seq<string>)
    ensures out == Table(list.units, globFilter, matchGlob)
  {
    var units := list.units;
    var ws := ColumnWidths(units);
    var lineLen := ws.node + |ColSep| + ws.id + |ColSep| + ws.active + |ColSep| + ws.sub;
    var rows := PrintRows(units, ws, globFilter, matchGlob);
    out := [Row(Titles, ws), Separator(lineLen)] + rows;
  }

  /** The last loop of `print_unit_list_simple`: the row of each unit that passes the filter, in list order. */
  method PrintRows(units: seq<UnitInfo>, ws: Widths, globFilter: Option<string>, matchGlob: (string, string) -> bool)
      returns (rows: seq<string>)
    ensures rows == Rows(Selected(units, globFilter, matchGlob), ws)
  {
    rows := [];
    var i := 0;
    while i < |units|
      invariant 0 <= i <= |units|
      invariant rows == Rows(Selected(units[..i], globFilter, matchGlob), ws)
    {
      RowsStep(units, i, ws, globFilter, matchGlob);
      if Keep(units[i], globFilter, matchGlob) {
        rows := rows + [Row(units[i], ws)];
      } else {
        assert rows + [] == rows;
      }
      i := i + 1;
    }
    assert units[..i] == units;
  }

  /** Printing the rows of one more unit adds its row, if it is selected. */
  lemma RowsStep(units: seq<UnitInfo>, i: nat, ws: Widths, globFilter: Option<string>, matchGlob: (string, string) -> bool)
    requires i < |units|
    ensures Rows(Selected(units[..i + 1], globFilter, matchGlob), ws)
         == Rows(Selected(units[..i], globFilter, matchGlob), ws)
            + (if Keep(units[i], globFilter, matchGlob) then [Row(units[i], ws)] else [])
  {
    assert units[..i + 1][..i] == units[..i];
    var s := Selected(units[..i], globFilter, matchGlob);
    if Keep(units[i], globFilter, matchGlob) {
      assert (s + [units[i]])[..|s|] == s;
    }
  }

  // ---------------------------------------------------------------------
  // Dispatch

  /** A listing: fetch, then print only when the fetch did not fail. */
  function Listing(reply: Reply, nodeName: Option<string>, globFilter: Option<string>, matchGlob: (string, string) -> bool): Outcome
  {
    var f := Fetch(reply, nodeName);
    if f.code < 0 then Outcome(f.code, []) else Outcome(0, Table(f.units, globFilter, matchGlob))
  }

  /** A failed listing prints nothing and returns the failure; a successful one returns 0 and prints the table. */
  lemma ListingOutcome(reply: Reply, nodeName: Option<string>, globFilter: Option<string>, matchGlob: (string, string) -> bool)
    ensures var o := Listing(reply, nodeName, globFilter, matchGlob);
            && o.code <= 0
            && (o.code < 0 <==> Fetch(reply, nodeName).code < 0)
            && (o.code < 0 ==> o.output == [])
            && (o.code == 0 ==> |o.output| == 2 + |Selected(Fetch(reply, nodeName).units, globFilter, matchGlob)|)
  {
    FetchCode(reply, nodeName);
    var units := Fetch(reply, nodeName).units;
    RowsIndex(Selected(units, globFilter, matchGlob), WidthsOf(units));
  }

  /**
   * Fetch into a fresh list and print it; the cleanup handler drops the
   * list's only reference on every return path.
   */
  method FetchAndPrint(reply: Reply, nodeName: Option<string>, globFilter: Option<string>, matchGlob: (string, string) -> bool)
      returns (r: int, out: seq<string>)
    ensures Outcome(r, out) == Listing(reply, nodeName, globFilter, matchGlob)
  {
    var list := new UnitList();
    r := FetchUnitList(reply, nodeName, list);
    if r < 0 {
      out := [];
      var _ := list.Unref();
      return;
    }
    FetchCode(reply, nodeName);
    assert list.units == [] + Fetch(reply, nodeName).units == Fetch(reply, nodeName).units;
    out := PrintUnitListSimple(list, globFilter, matchGlob);
    var _ := list.Unref();
    r := 0;
  }

  /** `method_list_units_on_all`: list the units of every node through the controller. */
  method MethodListUnitsOnAll(bus: Query -> Reply, globFilter: Option<string>, matchGlob: (string, string) -> bool)
      returns (r: int, out: seq<string>)
    ensures Outcome(r, out) == Listing(bus(Controller), None, globFilter, matchGlob)
  {
    r, out := FetchAndPrint(bus(Controller), None, globFilter, matchGlob);
  }

  /**
   * `method_list_units_on`: list the units of one node through its own
   * object, stamping each unit with the node's name; a failure to build
   * the object path is returned before any call.
   */
  method MethodListUnitsOn(bus: Query -> Reply, nodeName: string, assemble: string -> Assembled,
                           globFilter: Option<string>, matchGlob: (string, string) -> bool)
      returns (r: int, out: seq<string>)
    ensures assemble(nodeName).code < 0 ==> r == assemble(nodeName).code && out == []
    ensures assemble(nodeName).code >= 0 ==>
              Outcome(r, out) == Listing(bus(Node(assemble(nodeName).path)), Some(nodeName), globFilter, matchGlob)
  {
    var path := assemble(nodeName);
    if path.code < 0 {
      return path.code, [];
    }
    r, out := FetchAndPrint(bus(Node(path.path)), Some(nodeName), globFilter, matchGlob);
  }

  /**
   * `method_list_units`: with no operands list the units of all nodes,
   * otherwise those of the node named by the first operand.
   */
  method MethodListUnits(opargv: seq<string>, filterGlob: Option<string>, bus: Query -> Reply,
                         assemble: string -> Assembled, matchGlob: (string, string) -> bool)
      returns (r: int, out: seq<string>)
    ensures |opargv| == 0 ==> Outcome(r, out) == Listing(bus(Controller), None, filterGlob, matchGlob)
    ensures |opargv| > 0 && assemble(opargv[0]).code < 0 ==> r == assemble(opargv[0]).code && out == []
    ensures |opargv| > 0 && assemble(opargv[0]).code >= 0 ==>
              Outcome(r, out) == Listing(bus(Node(assemble(opargv[0]).path)), Some(opargv[0]), filterGlob, matchGlob)
  {
    if |opargv| == 0 {
      r, out := MethodListUnitsOnAll(bus, filterGlob, matchGlob);
      return;
    }
    r, out := MethodListUnitsOn(bus, opargv[0], assemble, filterGlob, matchGlob);
  }
}
