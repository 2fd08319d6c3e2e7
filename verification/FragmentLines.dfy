/** The published text, line by line. */
module FragmentLines {
  import opened Wrappers
  import opened Sorting
  import opened Strings
  import opened Cluster
  import opened Convert
  import opened Plans
  import opened PlanTheorems
  import opened RenderedText
  import opened RenderTheorems
  import Api
  import Disjointness
  import Render
  import RoundTrip

  /** The seven lines of a block. */
  function BlockRows(r: Render.Route): (rows: seq<string>)
    ensures |rows| == 7
  {
    [ "",
      "# zoneroute: " + r.name + " (generation " + Decimal(r.generation) + ")",
      Join(Render.ZoneKeys(r.zones) + ["{"], " "),
      "    " + Join(["forward", "."] + Addresses(r.upstreams) + ["{"], " "),
      "        policy sequential",
      "    }",
      "}" ]
  }

  function Rows(routes: seq<Render.Route>): (rows: seq<string>)
    ensures |rows| == 7 * |routes|
  {
    if routes == [] then [] else Rows(routes[..|routes| - 1]) + BlockRows(routes[|routes| - 1])
  }

  lemma SplitLine(line: string, rest: string)
    requires '\n' !in line
    ensures Split(line + "\n" + rest, '\n') == [line] + Split(rest, '\n')
  {
    SplitConcat(line, '\n', rest);
    SplitAtom(line, '\n');
  }

  lemma {:induction false} SplitLines(lines: seq<string>, rest: string)
    requires forall x | x in lines :: '\n' !in x
    ensures Split(Ended(lines) + rest, '\n') == lines + Split(rest, '\n')
    decreases |lines|
  {
    hide Split;
    if lines == [] {
      assert "" + rest == rest;
      assert [] + Split(rest, '\n') == Split(rest, '\n');
    } else {
      assert lines[0] in lines;
      SplitLines(lines[1..], rest);
      SplitLine(lines[0], Ended(lines[1..]) + rest);
      assert Ended(lines) + rest == lines[0] + "\n" + (Ended(lines[1..]) + rest);
      assert lines == [lines[0]] + lines[1..];
    }
  }

  /** The lines with their line ends. */
  function Ended(lines: seq<string>): string {
    if lines == [] then "" else lines[0] + "\n" + Ended(lines[1..])
  }

  lemma {:induction false} EndedConcat(a: seq<string>, b: seq<string>)
    ensures Ended(a + b) == Ended(a) + Ended(b)
  {
    if a == [] {
      assert a + b == b;
    } else {
      assert (a + b)[0] == a[0] && (a + b)[1..] == a[1..] + b;
      EndedConcat(a[1..], b);
    }
  }

  lemma EndedSeven(a: string, b: string, c: string, d: string, e: string, f: string, g: string)
    ensures Ended([a, b, c, d, e, f, g])
         == a + "\n" + (b + "\n" + (c + "\n" + (d + "\n" + (e + "\n" + (f + "\n" + (g + "\n"))))))
  {
    var s := [a, b, c, d, e, f, g];
    assert s[1..] == [b, c, d, e, f, g] && [b, c, d, e, f, g][1..] == [c, d, e, f, g] && [c, d, e, f, g][1..] == [d, e, f, g];
    assert [d, e, f, g][1..] == [e, f, g] && [e, f, g][1..] == [f, g] && [f, g][1..] == [g] && [g][1..] == [];
    assert Ended([g]) == g + "\n";
    assert Ended([f, g]) == f + "\n" + (g + "\n");
    assert Ended([e, f, g]) == e + "\n" + Ended([f, g]);
    assert Ended([d, e, f, g]) == d + "\n" + Ended([e, f, g]);
    assert Ended([c, d, e, f, g]) == c + "\n" + Ended([d, e, f, g]);
    assert Ended([b, c, d, e, f, g]) == b + "\n" + Ended([c, d, e, f, g]);
    assert Ended(s) == a + "\n" + Ended([b, c, d, e, f, g]);
  }

  lemma LineIs(indent: string, words: seq<string>)
    ensures LineText(indent, words) == (indent + Join(words, " ")) + "\n"
  {
    hide Join;
    var j := Join(words, " ");
    assert indent + (j + "\n") == (indent + j) + "\n";
  }

  lemma LiteralRows()
    ensures "" + "\n" == "\n" && "        policy sequential" + "\n" == "        policy sequential\n"
    ensures "    }" + "\n" == "    }\n" && "}" + "\n" == "}\n"
  {
  }

  lemma SevenRows(c: string, k: string, f: string)
    ensures Ended(["", c, k, f, "        policy sequential", "    }", "}"])
         == "\n" + ((c + "\n") + ((k + "\n") + ((f + "\n") + ("        policy sequential\n" + ("    }\n" + "}\n")))))
  {
    hide Ended;
    EndedSeven("", c, k, f, "        policy sequential", "    }", "}");
    LiteralRows();
  }

  /** The text of a block is its rows. */
  lemma BlockIsRows(r: Render.Route)
    requires r.zones != []
    ensures Render.BlockText(r) == Ended(BlockRows(r))
  {
    hide Join, Addresses, Render.ZoneKeys, Decimal, LineText, Ended, Render.BlockText;
    BlockAsLines(r);
    TailText();
    LineIs("", KeyLine(r));
    LineIs("    ", ForwardLine(r));
    var k := Join(Render.ZoneKeys(r.zones) + ["{"], " ");
    assert "" + k == k;
    SevenRows(Render.CommentLine(r), k, "    " + Join(["forward", "."] + Addresses(r.upstreams) + ["{"], " "));
  }

  lemma {:induction false} BlocksAreRows(routes: seq<Render.Route>)
    requires forall r | r in routes :: r.zones != []
    ensures Render.BlocksText(routes) == Ended(Rows(routes))
  {
    hide BlockRows, Ended, Render.BlockText;
    if routes == [] {
      EndedNone();
    } else {
      var init, r := routes[..|routes| - 1], routes[|routes| - 1];
      assert r in routes && forall q | q in init :: q in routes;
      BlocksAreRows(init);
      BlockIsRows(r);
      EndedConcat(Rows(init), BlockRows(r));
    }
  }

  lemma EndedNone()
    ensures Ended([]) == ""
  {
  }

  // ---- no line is broken

  lemma WordsOnOneLine(words: seq<string>)
    requires AllPlain(words)
    ensures '\n' !in Join(words, " ")
  {
    Api.JoinChars(words, " ");
    forall c | c in Join(words, " ") ensures c != '\n' {
      if c !in " " {
        var w :| w in words && c in w;
        assert PlainChar(c);
      }
    }
  }

  lemma RowsUnbroken(r: Render.Route)
    requires ValidRoute(r)
    ensures forall x | x in BlockRows(r) :: '\n' !in x
  {
    hide AllPlain, Join, ValidRoute, Addresses, Render.ZoneKeys, Decimal;
    BlockWordsPlain(r);
    CommentHasNoNewline(r);
    WordsOnOneLine(KeyLine(r));
    WordsOnOneLine(ForwardLine(r));
    forall x | x in BlockRows(r) ensures '\n' !in x {
      var i :| 0 <= i < 7 && BlockRows(r)[i] == x;
    }
  }

  lemma {:induction false} AllUnbroken(routes: seq<Render.Route>)
    requires ValidRoutes(routes)
    ensures forall x | x in Rows(routes) :: '\n' !in x
  {
    hide BlockRows, ValidRoute;
    if routes != [] {
      assert routes[|routes| - 1] in routes;
      AllUnbroken(routes[..|routes| - 1]);
      RowsUnbroken(routes[|routes| - 1]);
    }
  }

  const HEADER_LINE := "# Managed by ZoneRoute." + " Edits are overwritten."

  lemma HeaderIs()
    ensures Render.HEADER == HEADER_LINE + "\n" && '\n' !in HEADER_LINE
  {
    assert '\n' !in "# Managed by ZoneRoute." && '\n' !in " Edits are overwritten.";
  }

  lemma RowsSplit(rows: seq<string>)
    requires forall x | x in rows :: '\n' !in x
    ensures Split(HEADER_LINE + "\n" + Ended(rows), '\n') == [HEADER_LINE] + rows + [""]
  {
    hide Split, Ended, HEADER_LINE;
    HeaderIs();
    SplitLine(HEADER_LINE, Ended(rows));
    SplitLines(rows, "");
    SplitEmpty('\n');
    assert Ended(rows) + "" == Ended(rows);
    assert [HEADER_LINE] + (rows + [""]) == [HEADER_LINE] + rows + [""];
  }

  /** The text has a header, the rows of every block, and nothing after the last line end. */
  lemma FragmentIsRows(routes: seq<Render.Route>)
    requires ValidRoutes(routes)
    ensures Split(Render.FragmentText(routes), '\n') == [HEADER_LINE] + Rows(Sort(routes, Render.ByName)) + [""]
  {
    hide Rows, Render.BlocksText, Split, ValidRoute, Ended, HEADER_LINE, Sort;
    var sorted := Sort(routes, Render.ByName);
    RoundTrip.SortedValid(routes);
    forall r | r in sorted ensures r.zones != [] {
      ValidHasZones(r);
    }
    BlocksAreRows(sorted);
    AllUnbroken(sorted);
    HeaderIs();
    RowsSplit(Rows(sorted));
  }

  lemma ValidHasZones(r: Render.Route)
    requires ValidRoute(r)
    ensures r.zones != []
  {
  }

  lemma {:induction false} RowAt(routes: seq<Render.Route>, i: nat, k: nat)
    requires i < |routes| && k < 7
    ensures Rows(routes)[7 * i + k] == BlockRows(routes[i])[k]
  {
    hide BlockRows;
    var n := |routes| - 1;
    if i < n {
      RowAt(routes[..n], i, k);
    }
  }

  lemma NamesAscend(routes: seq<Render.Route>)
    ensures var sorted := Sort(routes, Render.ByName);
            |sorted| == |routes| && forall a, b | 0 <= a < b < |sorted| :: !Less(sorted[b].name, sorted[a].name)
  {
    LessIsOrder();
    SortSorted(routes, Render.ByName);
    SortPermutes(routes, Render.ByName);
  }

  lemma LineAt(routes: seq<Render.Route>, i: nat, k: nat)
    requires ValidRoutes(routes) && i < |routes| && k < 7
    ensures var lines, sorted := Split(Render.FragmentText(routes), '\n'), Sort(routes, Render.ByName);
            |sorted| == |routes| && |lines| == 7 * |routes| + 2 && lines[0] == HEADER_LINE
            && lines[7 * i + 1 + k] == BlockRows(sorted[i])[k]
  {
    hide Split, ValidRoute, BlockRows, Render.FragmentText, Less;
    FragmentIsRows(routes);
    NamesAscend(routes);
    RowAt(Sort(routes, Render.ByName), i, k);
  }

  /** Line by line: after the header each route has seven lines, in the ascending order of the
      names: an empty one, a comment with its name and generation, its zones, its upstreams,
      the policy, and the closing braces. */
  lemma LinesOfFragment(routes: seq<Render.Route>, i: nat)
    requires ValidRoutes(routes) && i < |routes|
    ensures var lines, sorted := Split(Render.FragmentText(routes), '\n'), Sort(routes, Render.ByName);
            && |sorted| == |routes| && |lines| == 7 * |routes| + 2
            && (forall a, b | 0 <= a < b < |sorted| :: !Less(sorted[b].name, sorted[a].name))
            && lines[0] == "# Managed by ZoneRoute." + " Edits are overwritten."
            && lines[7 * i + 1] == ""
            && lines[7 * i + 2] == "# zoneroute: " + sorted[i].name + " (generation " + Decimal(sorted[i].generation) + ")"
            && lines[7 * i + 3] == Join(Render.ZoneKeys(sorted[i].zones) + ["{"], " ")
            && lines[7 * i + 4] == "    " + Join(["forward", "."] + Addresses(sorted[i].upstreams) + ["{"], " ")
            && lines[7 * i + 5] == "        policy sequential"
            && lines[7 * i + 6] == "    }"
            && lines[7 * i + 7] == "}"
  {
    hide Split, ValidRoute, Join, Addresses, Render.ZoneKeys, Decimal, Render.FragmentText, Less, Sort;
    NamesAscend(routes);
    LineAt(routes, i, 0);
    LineAt(routes, i, 1);
    LineAt(routes, i, 2);
    LineAt(routes, i, 3);
    LineAt(routes, i, 4);
    LineAt(routes, i, 5);
    LineAt(routes, i, 6);
  }

  // ---- for the routes of a plan

  /** An accepted ZoneRoute has its seven lines, with its own name, generation, zones and
      upstreams. */
  lemma AcceptedRouteIsPrinted(items: seq<ZoneRoute>, corefile: string, servers: ConfigMap, domain: string, plan: Plan, z: ZoneRoute)
    returns (i: nat)
    requires IsPlan(items, corefile, servers, domain, plan) && plan.fragment.Ok?
    requires forall y | y in items :: Disjointness.Admitted(y)
    requires z in items && DecisionFor(plan.decisions, z.name).accepted
    ensures var lines := Split(plan.fragment.value, '\n');
            && 7 * i + 7 < |lines|
            && lines[7 * i + 2] == "# zoneroute: " + z.name + " (generation " + Decimal(z.generation) + ")"
            && lines[7 * i + 3] == Join(Render.ZoneKeys(z.zones) + ["{"], " ")
            && lines[7 * i + 4] == "    " + Join(["forward", "."] + Addresses(z.upstreams) + ["{"], " ")
  {
    hide IsPlan, Split, Join, Addresses, Render.ZoneKeys, Decimal, Render.FragmentText, Disjointness.Admitted, DecisionFor, Less;
    var routes := Disjointness.Rendered(items, plan);
    var r := Render.Route(z.name, z.generation, z.zones, z.upstreams);
    Disjointness.PlanFragment(items, corefile, servers, domain, plan);
    Disjointness.RenderedIffAccepted(items, corefile, servers, domain, plan, z);
    RenderRoutesMembers(items, AcceptedNames(plan.decisions));
    assert r in routes;
    SortElements(routes, Render.ByName);
    var sorted := Sort(routes, Render.ByName);
    var k :| 0 <= k < |sorted| && sorted[k] == r;
    NamesAscend(routes);
    i := k;
    Disjointness.RenderedValid(items, plan);
    LinesOfFragment(routes, i);
  }
}
