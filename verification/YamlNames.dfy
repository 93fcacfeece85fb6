/** What the indentation parser prints for any list of lines, trees or not, told from the lines
    alone. */
module YamlNames {
  import opened Text
  import opened ParseYaml

  /** Whether a line at the first depth ends what was named at the second. */
  type Order = (nat, nat) -> bool

  /** As numbers, which is what the program means. */
  const Numeric: Order := (d: nat, level: nat) => d < level

  /** As text, which is what awk does with the index of a loop. */
  const Textual: Order := (d: nat, level: nat) => Greater(Decimal(level), Decimal(d))

  /** The last line at `level` after which no line ends it: its key, or nothing. */
  function Ancestor(lines: seq<Line>, level: nat, ends: Order): string {
    if lines == [] then ""
    else
      var last := lines[|lines| - 1];
      if last.depth == level then last.key
      else if ends(last.depth, level) then ""
      else Ancestor(lines[..|lines| - 1], level, ends)
  }

  /** Line `i` is at `level`, and no line after it is at that level or ends it. */
  ghost predicate Governs(lines: seq<Line>, level: nat, ends: Order, i: nat)
    requires i < |lines|
  {
    lines[i].depth == level && forall j :: i < j < |lines| ==> Spares(lines[j], level, ends)
  }

  predicate Spares(line: Line, level: nat, ends: Order) {
    line.depth != level && !ends(line.depth, level)
  }

  lemma GovernsBefore(lines: seq<Line>, level: nat, ends: Order, i: nat)
    requires i + 1 < |lines| && Spares(lines[|lines| - 1], level, ends)
    ensures Governs(lines[..|lines| - 1], level, ends, i) <==> Governs(lines, level, ends, i)
  {
    var n := |lines| - 1;
    assert forall j :: i < j < n ==> lines[..n][j] == lines[j];
  }

  /** The line that governs a level gives the ancestor; without one there is none. */
  lemma {:induction false} AncestorIs(lines: seq<Line>, level: nat, ends: Order)
    ensures forall i :: 0 <= i < |lines| && Governs(lines, level, ends, i) ==>
      Ancestor(lines, level, ends) == lines[i].key
    ensures (forall i :: 0 <= i < |lines| ==> !Governs(lines, level, ends, i)) ==> Ancestor(lines, level, ends) == ""
  {
    if lines == [] {
    } else {
      var n := |lines| - 1;
      AncestorIs(lines[..n], level, ends);
      if Spares(lines[n], level, ends) {
        forall i: nat | i < n
          ensures Governs(lines[..n], level, ends, i) <==> Governs(lines, level, ends, i)
        {
          GovernsBefore(lines, level, ends, i);
        }
      } else if lines[n].depth == level {
        assert Governs(lines, level, ends, n);
      }
    }
  }

  /** The ancestors' keys level by level, each followed by an underscore. */
  function Path(lines: seq<Line>, depth: nat, ends: Order): string {
    if depth == 0 then "" else Path(lines, depth - 1, ends) + Ancestor(lines, depth - 1, ends) + "_"
  }

  /** What should be printed: each line with a value, under the path that the lines before it
      give. */
  function Expected(lines: seq<Line>, ends: Order): seq<Assignment> {
    if lines == [] then []
    else
      var init, last := lines[..|lines| - 1], lines[|lines| - 1];
      if last.value == "" then Expected(init, ends)
      else Expected(init, ends) + [Assignment(Path(init, last.depth, ends) + last.key, last.value)]
  }

  /***** The parser *****/

  /** The array holds the ancestors. */
  ghost predicate HoldsAncestors(names: Names, lines: seq<Line>) {
    forall level: nat :: Get(names, level) == Ancestor(lines, level, Textual)
  }

  lemma EnteredAt(names: Names, line: Line, level: nat)
    ensures Get(Entered(names, line), level) ==
      if level == line.depth then line.key else if Textual(line.depth, level) then "" else Get(names, level)
  {
    NothingIsGreaterThanItself(Decimal(line.depth));
  }

  lemma EnteredAncestors(names: Names, lines: seq<Line>, line: Line)
    requires HoldsAncestors(names, lines)
    ensures HoldsAncestors(Entered(names, line), lines + [line])
  {
    assert (lines + [line])[..|lines|] == lines;
    forall level: nat ensures Get(Entered(names, line), level) == Ancestor(lines + [line], level, Textual) {
      EnteredAt(names, line, level);
    }
  }

  lemma {:induction false} PathIs(names: Names, lines: seq<Line>, depth: nat)
    requires HoldsAncestors(names, lines)
    ensures Prefix(names, depth) == Path(lines, depth, Textual)
  {
    if depth == 0 {
    } else {
      PathIs(names, lines, depth - 1);
    }
  }

  lemma StepPrints(names: Names, lines: seq<Line>, line: Line)
    requires HoldsAncestors(names, lines)
    ensures HoldsAncestors(Step(names, line).0, lines + [line])
    ensures Step(names, line).1 ==
      if line.value == "" then []
      else [Assignment(Path(lines + [line], line.depth, Textual) + line.key, line.value)]
  {
    var entered := Entered(names, line);
    EnteredAncestors(names, lines, line);
    PathIs(entered, lines + [line], line.depth);
    forall level: nat ensures Get(Touched(entered, line.depth), level) == Get(entered, level) {
      TouchedGet(entered, line.depth, level);
    }
  }

  /** What is printed, at any depth: each line with a value, under the path that the lines up to
      and including it give. */
  function Printed(lines: seq<Line>): seq<Assignment> {
    if lines == [] then []
    else
      var init, last := lines[..|lines| - 1], lines[|lines| - 1];
      if last.value == "" then Printed(init)
      else Printed(init) + [Assignment(Path(lines, last.depth, Textual) + last.key, last.value)]
  }

  lemma {:induction false} RunPrints(lines: seq<Line>)
    ensures HoldsAncestors(Run(map[], lines).0, lines)
    ensures Run(map[], lines).1 == Printed(lines)
  {
    if lines == [] {
    } else {
      var init, last := lines[..|lines| - 1], lines[|lines| - 1];
      RunPrints(init);
      assert init + [last] == lines;
      RunConcat(map[], init, [last]);
      RunOne(Run(map[], init).0, last);
      StepPrints(Run(map[], init).0, init, last);
    }
  }

  /** For any lines at all the parser prints exactly the lines with a value, in order, each named
      level by level by the key of the last line at that level that no later line ends, where a
      line ends the levels whose numerals are greater than that of its depth as text. */
  lemma AnyLines(lines: seq<Line>)
    ensures Run(map[], lines).1 == Printed(lines)
  {
    RunPrints(lines);
  }

  /** Text order: a longer text after the same beginning is greater, and otherwise the first
      difference decides. */
  lemma {:induction false} GreaterIs(common: string, a: string, b: string)
    requires a == "" || b == "" || a[0] != b[0]
    ensures Greater(common + a, common + b) <==> a != "" && (b == "" || a[0] > b[0])
  {
    if common == "" {
      assert common + a == a && common + b == b;
    } else {
      assert (common + a)[1..] == common[1..] + a && (common + b)[1..] == common[1..] + b;
      GreaterIs(common[1..], a, b);
    }
  }

  /***** Up to nine levels *****/

  ghost predicate NineLevels(lines: seq<Line>) {
    forall i :: 0 <= i < |lines| ==> lines[i].depth <= 9
  }

  lemma {:induction false} SameAncestor(lines: seq<Line>, level: nat)
    requires NineLevels(lines) && level <= 9
    ensures Ancestor(lines, level, Textual) == Ancestor(lines, level, Numeric)
  {
    if lines == [] {
    } else {
      SameAncestor(lines[..|lines| - 1], level);
      DigitsCompare(level, lines[|lines| - 1].depth);
    }
  }

  /** The line itself ends no level above it. */
  lemma {:induction false} SamePath(lines: seq<Line>, depth: nat)
    requires NineLevels(lines) && lines != [] && depth <= lines[|lines| - 1].depth
    ensures Path(lines, depth, Textual) == Path(lines[..|lines| - 1], depth, Numeric)
  {
    if depth == 0 {
    } else {
      SamePath(lines, depth - 1);
      SameAncestor(lines[..|lines| - 1], depth - 1);
      DigitsCompare(depth - 1, lines[|lines| - 1].depth);
    }
  }

  /** For any lines of at most nine levels, with jumps in depth allowed, the parser prints exactly
      the lines with a value, in order, each named level by level by the key of the last earlier
      line at that level that no shallower line follows, or by nothing. */
  lemma ShallowLines(lines: seq<Line>)
    requires NineLevels(lines)
    ensures Run(map[], lines).1 == Expected(lines, Numeric)
  {
    AnyLines(lines);
    PrintedIsExpected(lines);
  }

  lemma {:induction false} PrintedIsExpected(lines: seq<Line>)
    requires NineLevels(lines)
    ensures Printed(lines) == Expected(lines, Numeric)
  {
    if lines == [] {
    } else {
      PrintedIsExpected(lines[..|lines| - 1]);
      SamePath(lines, lines[|lines| - 1].depth);
    }
  }

  /** A stale deeper name is forgotten: after `a` and `b` below it, and `c` back at the top, a line
      two levels below `c` is named by `c` and an empty key. */
  lemma StaleNameForgotten(a: string, b: string, c: string, key: string, v: string)
    requires v != ""
    ensures Run(map[], [Line(0, a, ""), Line(1, b, ""), Line(0, c, ""), Line(2, key, v)]).1 ==
      [Assignment(c + "_" + "" + "_" + key, v)]
  {
    var l0, l1, l2, l3 := Line(0, a, ""), Line(1, b, ""), Line(0, c, ""), Line(2, key, v);
    var lines := [l0, l1, l2];
    ShallowLines([l0, l1, l2, l3]);
    assert [l0, l1, l2, l3][..3] == lines && lines[..2] == [l0, l1] && [l0, l1][..1] == [l0] && [l0][..0] == [];
    assert Expected([l0], Numeric) == Expected([], Numeric) == [];
    assert Expected([l0, l1], Numeric) == Expected([l0], Numeric);
    assert Expected(lines, Numeric) == Expected([l0, l1], Numeric) == [];
    assert Ancestor(lines, 0, Numeric) == c && Ancestor(lines, 1, Numeric) == "";
    assert Path(lines, 1, Numeric) == Path(lines, 0, Numeric) + Ancestor(lines, 0, Numeric) + "_" == "" + c + "_";
    assert "" + c + "_" == c + "_";
    assert Path(lines, 2, Numeric) == Path(lines, 1, Numeric) + Ancestor(lines, 1, Numeric) + "_";
  }
}
