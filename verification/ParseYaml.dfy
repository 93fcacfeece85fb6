/** The indentation parser of the job script: an awk array of ancestor names indexed by depth,
    read against a printer that writes trees at two spaces a level. */
module ParseYaml {
  import opened Text

  /** A tokenised line: its depth (half its leading spaces), its key and its value. */
  datatype Line = Line(depth: nat, key: string, value: string)

  /** A printed assignment. */
  datatype Assignment = Assignment(name: string, value: string)

  /** The awk array. */
  type Names = map<nat, string>

  /** awk compares the index of a `for (i in vname)` loop as a string. */
  predicate Greater(a: string, b: string) {
    if a == "" then false
    else if b == "" then true
    else a[0] > b[0] || (a[0] == b[0] && Greater(a[1..], b[1..]))
  }

  predicate Deleted(i: nat, depth: nat) {
    Greater(Decimal(i), Decimal(depth))
  }

  /** Reading an element that is not there gives the empty string. */
  function Get(names: Names, i: nat): string {
    if i in names then names[i] else ""
  }

  /** `vname` once the line's key is stored and the deeper entries are deleted. */
  function Entered(names: Names, line: Line): Names {
    var stored := names[line.depth := line.key];
    map i | i in stored && !Deleted(i, line.depth) :: stored[i]
  }

  /** The first `n` names, each followed by an underscore. */
  function Prefix(names: Names, n: nat): string {
    if n == 0 then "" else Prefix(names, n - 1) + Get(names, n - 1) + "_"
  }

  /** Reading creates the elements that were missing. */
  function Touched(names: Names, n: nat): Names {
    if n == 0 then names else Touched(names, n - 1)[n - 1 := Get(names, n - 1)]
  }

  function Step(names: Names, line: Line): (Names, seq<Assignment>) {
    var entered := Entered(names, line);
    if line.value == "" then (entered, [])
    else (Touched(entered, line.depth), [Assignment(Prefix(entered, line.depth) + line.key, line.value)])
  }

  function Run(names: Names, lines: seq<Line>): (Names, seq<Assignment>)
    decreases |lines|
  {
    if lines == [] then (names, [])
    else
      var (names1, out1) := Step(names, lines[0]);
      var (names2, out2) := Run(names1, lines[1..]);
      (names2, out1 + out2)
  }

  /***** The program *****/

  lemma {:induction false} TouchedGet(names: Names, n: nat, i: nat)
    ensures Get(Touched(names, n), i) == Get(names, i)
    ensures i in Touched(names, n) <==> i in names || i < n
  {
    if n == 0 {
    } else {
      TouchedGet(names, n - 1, i);
    }
  }

  method DeleteDeeper(names: Names, depth: nat) returns (r: Names)
    ensures r == map i | i in names && !Deleted(i, depth) :: names[i]
  {
    r := names;
    var todo := names.Keys;
    while todo != {}
      invariant todo <= names.Keys
      invariant r == map i | i in names && (i in todo || !Deleted(i, depth)) :: names[i]
      decreases |todo|
    {
      var i :| i in todo;
      todo := todo - {i};
      if Greater(Decimal(i), Decimal(depth)) {
        r := r - {i};
      }
    }
  }

  method QualifiedName(names: Names, depth: nat) returns (vn: string, r: Names)
    ensures vn == Prefix(names, depth)
    ensures r == Touched(names, depth)
  {
    vn, r := "", names;
    for i := 0 to depth
      invariant vn == Prefix(names, i)
      invariant r == Touched(names, i)
    {
      TouchedGet(names, i, i);
      if i !in r {
        r := r[i := ""];
      } else {
        assert r[i := r[i]] == r;
      }
      vn := vn + r[i] + "_";
    }
  }

  method ReadLine(names: Names, line: Line) returns (r: Names, out: seq<Assignment>)
    ensures (r, out) == Step(names, line)
  {
    r := names[line.depth := line.key];
    r := DeleteDeeper(r, line.depth);
    out := [];
    if |line.value| > 0 {
      var vn: string;
      vn, r := QualifiedName(r, line.depth);
      out := [Assignment(vn + line.key, line.value)];
    }
  }

  method ParseLines(lines: seq<Line>) returns (out: seq<Assignment>)
    ensures out == Run(map[], lines).1
  {
    var vname: Names := map[];
    out := [];
    for n := 0 to |lines|
      invariant Run(map[], lines).1 == out + Run(vname, lines[n..]).1
    {
      var vname', printed := ReadLine(vname, lines[n]);
      assert lines[n..][1..] == lines[n + 1..];
      RunFrom(vname, lines[n..], vname', printed);
      Regroup(out, printed, Run(vname', lines[n + 1..]).1);
      vname, out := vname', out + printed;
    }
  }

  /***** Trees *****/

  datatype Tree = Leaf(key: string, value: string) | Node(key: string, children: seq<Tree>)

  /** The lines of a forest whose roots are at `depth`. */
  function Print(forest: seq<Tree>, depth: nat): seq<Line>
    decreases forest
  {
    if forest == [] then []
    else
      (match forest[0]
       case Leaf(key, value) => [Line(depth, key, value)]
       case Node(key, children) => [Line(depth, key, "")] + Print(children, depth + 1)) +
      Print(forest[1..], depth)
  }

  /** `a_b_` for the path `[a, b]` */
  function PathName(path: seq<string>): string {
    if path == [] then "" else PathName(path[..|path| - 1]) + path[|path| - 1] + "_"
  }

  /** The leaves in preorder, each under its full path. */
  function Leaves(forest: seq<Tree>, path: seq<string>): seq<Assignment>
    decreases forest
  {
    if forest == [] then []
    else
      (match forest[0]
       case Leaf(key, value) => [Assignment(PathName(path) + key, value)]
       case Node(key, children) => Leaves(children, path + [key])) +
      Leaves(forest[1..], path)
  }

  /** Leaves have values. */
  ghost predicate Valued(forest: seq<Tree>)
    decreases forest
  {
    forest != [] ==>
      (match forest[0]
       case Leaf(_, value) => value != ""
       case Node(_, children) => Valued(children)) && Valued(forest[1..])
  }

  /** Keys are not empty and every inner node has children. */
  ghost predicate Full(forest: seq<Tree>)
    decreases forest
  {
    forest != [] ==>
      forest[0].key != "" &&
      (match forest[0]
       case Leaf(_, _) => true
       case Node(_, children) => children != [] && Full(children)) && Full(forest[1..])
  }

  /** No line is deeper than nine levels. */
  predicate Shallow(forest: seq<Tree>, depth: nat)
    decreases forest
  {
    forest != [] ==>
      depth <= 9 &&
      (match forest[0]
       case Leaf(_, _) => true
       case Node(_, children) => Shallow(children, depth + 1)) && Shallow(forest[1..], depth)
  }

  /***** Round trip *****/

  lemma {:induction false} RunConcat(names: Names, a: seq<Line>, b: seq<Line>)
    ensures Run(names, a + b).0 == Run(Run(names, a).0, b).0
    ensures Run(names, a + b).1 == Run(names, a).1 + Run(Run(names, a).0, b).1
    decreases |a|
  {
    if a == [] {
      assert a + b == b;
      assert Run(names, []) == (names, []);
    } else {
      assert (a + b)[1..] == a[1..] + b && (a + b)[0] == a[0];
      var names1, out1 := SameStart(names, a, a + b);
      RunConcat(names1, a[1..], b);
      Regroup(out1, Run(names1, a[1..]).1, Run(Run(names, a).0, b).1);
    }
  }

  lemma Regroup(a: seq<Assignment>, b: seq<Assignment>, c: seq<Assignment>)
    ensures a + (b + c) == a + b + c
  {
  }

  /** Two runs with the same first line go on from the same array. */
  lemma SameStart(names: Names, a: seq<Line>, b: seq<Line>) returns (names1: Names, out1: seq<Assignment>)
    requires a != [] && b != [] && a[0] == b[0]
    ensures Run(names, a).0 == Run(names1, a[1..]).0 && Run(names, a).1 == out1 + Run(names1, a[1..]).1
    ensures Run(names, b).0 == Run(names1, b[1..]).0 && Run(names, b).1 == out1 + Run(names1, b[1..]).1
  {
    names1, out1 := Step(names, a[0]).0, Step(names, a[0]).1;
    RunFrom(names, a, names1, out1);
    RunFrom(names, b, names1, out1);
  }

  lemma RunFrom(names: Names, lines: seq<Line>, names1: Names, out1: seq<Assignment>)
    requires lines != [] && Step(names, lines[0]) == (names1, out1)
    ensures Run(names, lines).0 == Run(names1, lines[1..]).0
    ensures Run(names, lines).1 == out1 + Run(names1, lines[1..]).1
  {
  }

  /** Single digits compare as strings as they do as numbers. */
  lemma DigitsCompare(i: nat, depth: nat)
    requires i <= 9 && depth <= 9
    ensures Deleted(i, depth) <==> i > depth
  {
    var a, b := Decimal(i), Decimal(depth);
    assert a == [DigitChar(i)] && b == [DigitChar(depth)];
    assert a[1..] == "" && b[1..] == "";
    assert !Greater(a[1..], b[1..]);
    assert a[0] > b[0] <==> i > depth;
  }

  lemma {:induction false} NothingIsGreaterThanItself(s: string)
    ensures !Greater(s, s)
  {
    if s == "" {
    } else {
      NothingIsGreaterThanItself(s[1..]);
    }
  }

  /** The array holds the ancestors' names. */
  ghost predicate Holds(names: Names, path: seq<string>) {
    forall i: nat :: i < |path| ==> Get(names, i) == path[i]
  }

  lemma {:induction false} PrefixOfPath(names: Names, path: seq<string>)
    requires Holds(names, path)
    ensures Prefix(names, |path|) == PathName(path)
  {
    if path == [] {
    } else {
      PrefixOfPath(names, path[..|path| - 1]);
    }
  }

  lemma StepShallow(names: Names, path: seq<string>, key: string, value: string)
    requires |path| <= 9 && Holds(names, path)
    ensures var (names', out) := Step(names, Line(|path|, key, value));
      && Holds(names', path + [key])
      && out == if value == "" then [] else [Assignment(PathName(path) + key, value)]
  {
    var entered := Entered(names, Line(|path|, key, value));
    EnteredHolds(names, path, Line(|path|, key, value));
    HoldsShorter(entered, path, key);
    PrefixOfPath(entered, path);
    TouchedHolds(entered, |path|, path + [key]);
  }

  lemma EnteredHolds(names: Names, path: seq<string>, line: Line)
    requires |path| <= 9 && Holds(names, path) && line.depth == |path|
    ensures Holds(Entered(names, line), path + [line.key])
  {
    forall i: nat | i <= |path| ensures Get(Entered(names, line), i) == (path + [line.key])[i] {
      DigitsCompare(i, |path|);
      if i < |path| {
        assert Get(names, i) == path[i];
      }
    }
  }

  lemma TouchedHolds(names: Names, n: nat, path: seq<string>)
    requires Holds(names, path)
    ensures Holds(Touched(names, n), path)
  {
    forall i: nat | i < |path| ensures Get(Touched(names, n), i) == path[i] {
      TouchedGet(names, n, i);
    }
  }

  lemma HoldsShorter(names: Names, path: seq<string>, key: string)
    requires Holds(names, path + [key])
    ensures Holds(names, path)
  {
    forall i: nat | i < |path| ensures Get(names, i) == path[i] {
      assert (path + [key])[i] == path[i];
    }
  }

  /** The lines print `right` and leave the ancestors in place. */
  ghost predicate ReadAs(names: Names, lines: seq<Line>, right: seq<Assignment>, path: seq<string>) {
    Run(names, lines).1 == right && Holds(Run(names, lines).0, path)
  }

  lemma ReadConcat(names: Names, a: seq<Line>, b: seq<Line>, ra: seq<Assignment>, rb: seq<Assignment>,
                   path: seq<string>)
    requires ReadAs(names, a, ra, path) && ReadAs(Run(names, a).0, b, rb, path)
    ensures ReadAs(names, a + b, ra + rb, path)
  {
    RunConcat(names, a, b);
  }

  /** Below any ancestors, a shallow forest is printed leaf by leaf, and the ancestors stay. */
  lemma {:induction false} ForestRoundTrip(names: Names, forest: seq<Tree>, path: seq<string>)
    requires Valued(forest) && Shallow(forest, |path|) && Holds(names, path)
    ensures ReadAs(names, Print(forest, |path|), Leaves(forest, path), path)
    decreases forest, 1
  {
    if forest == [] {
    } else {
      var first := Print([forest[0]], |path|);
      PrintSplit(forest, |path|);
      LeavesSplit(forest, path);
      FirstRoundTrip(names, forest[0], path);
      ForestRoundTrip(Run(names, first).0, forest[1..], path);
      ReadConcat(names, first, Print(forest[1..], |path|), Leaves([forest[0]], path), Leaves(forest[1..], path), path);
    }
  }

  lemma {:induction false} FirstRoundTrip(names: Names, tree: Tree, path: seq<string>)
    requires Valued([tree]) && Shallow([tree], |path|) && Holds(names, path)
    ensures ReadAs(names, Print([tree], |path|), Leaves([tree], path), path)
    decreases tree, 1
  {
    PrintOne(tree, |path|);
    LeavesOne(tree, path);
    if tree.Leaf? {
      LeafReads(names, tree, path);
    } else {
      NodeReads(names, tree.key, tree.children, path);
    }
  }

  lemma LeafReads(names: Names, leaf: Tree, path: seq<string>)
    requires leaf.Leaf? && leaf.value != "" && |path| <= 9 && Holds(names, path)
    ensures ReadAs(names, [Line(|path|, leaf.key, leaf.value)],
                   [Assignment(PathName(path) + leaf.key, leaf.value)], path)
  {
    var line := Line(|path|, leaf.key, leaf.value);
    StepShallow(names, path, leaf.key, leaf.value);
    RunOne(names, line);
    HoldsShorter(Step(names, line).0, path, leaf.key);
  }

  lemma {:induction false} NodeReads(names: Names, key: string, children: seq<Tree>, path: seq<string>)
    requires |path| <= 9 && Holds(names, path) && Valued(children) && Shallow(children, |path| + 1)
    ensures ReadAs(names, [Line(|path|, key, "")] + Print(children, |path| + 1), Leaves(children, path + [key]), path)
    decreases children, 2
  {
    var lines := Print(children, |path| + 1);
    var line := Line(|path|, key, "");
    StepShallow(names, path, key, "");
    RunUnder(names, line, lines);
    var names1 := Step(names, line).0;
    ForestRoundTrip(names1, children, path + [key]);
    HoldsShorter(Run(names1, lines).0, path, key);
  }

  /** A key without a value prints nothing; its children are read in the array it leaves. */
  lemma RunUnder(names: Names, line: Line, lines: seq<Line>)
    requires line.value == ""
    ensures Run(names, [line] + lines) == Run(Step(names, line).0, lines)
  {
    assert ([line] + lines)[1..] == lines;
    var out := Run(Step(names, line).0, lines).1;
    assert [] + out == out;
  }

  lemma RunOne(names: Names, line: Line)
    ensures Run(names, [line]) == Step(names, line)
  {
    assert [line][1..] == [];
    assert Step(names, line).1 + [] == Step(names, line).1;
  }

  lemma PrintSplit(forest: seq<Tree>, depth: nat)
    requires forest != []
    ensures Print(forest, depth) == Print([forest[0]], depth) + Print(forest[1..], depth)
  {
    assert [forest[0]][1..] == [];
  }

  lemma PrintOne(tree: Tree, depth: nat)
    ensures Print([tree], depth) ==
      if tree.Leaf? then [Line(depth, tree.key, tree.value)]
      else [Line(depth, tree.key, "")] + Print(tree.children, depth + 1)
  {
    assert [tree][1..] == [];
  }

  lemma LeavesSplit(forest: seq<Tree>, path: seq<string>)
    requires forest != []
    ensures Leaves(forest, path) == Leaves([forest[0]], path) + Leaves(forest[1..], path)
  {
    assert [forest[0]][1..] == [];
  }

  lemma LeavesOne(tree: Tree, path: seq<string>)
    ensures Leaves([tree], path) ==
      if tree.Leaf? then [Assignment(PathName(path) + tree.key, tree.value)]
      else Leaves(tree.children, path + [tree.key])
  {
    assert [tree][1..] == [];
  }

  /***** Deeper trees *****/

  /** Each ancestor's name is there or reads as empty. */
  ghost predicate Partial(names: Names, path: seq<string>) {
    forall i: nat :: i < |path| ==> Get(names, i) == path[i] || Get(names, i) == ""
  }

  /** Below ten levels the tenth name is lost. */
  ghost predicate Lost(names: Names, path: seq<string>) {
    |path| > 10 ==> Get(names, 9) == ""
  }

  lemma {:induction false} PrefixNoLonger(names: Names, path: seq<string>)
    requires Partial(names, path)
    ensures |Prefix(names, |path|)| <= |PathName(path)|
    ensures |path| > 9 && path[9] != "" && Get(names, 9) == "" ==> |Prefix(names, |path|)| < |PathName(path)|
  {
    if path == [] {
    } else {
      var init := path[..|path| - 1];
      assert forall i: nat :: i < |init| ==> init[i] == path[i];
      PrefixNoLonger(names, init);
    }
  }

  lemma TenthDeleted(depth: nat)
    requires depth == 10
    ensures Deleted(9, depth)
  {
    assert Decimal(9) == [DigitChar(9)] && Decimal(1) == [DigitChar(1)];
    assert Decimal(10) == Decimal(1) + [DigitChar(0)];
    assert Decimal(9)[0] > Decimal(10)[0];
  }

  lemma StepDeep(names: Names, path: seq<string>, key: string, value: string)
    requires Partial(names, path) && Lost(names, path)
    ensures var (names', out) := Step(names, Line(|path|, key, value));
      && Partial(names', path + [key]) && Lost(names', path + [key])
      && (value == "" ==> out == [])
      && (value != "" ==> |out| == 1 && |out[0].name| <= |PathName(path) + key|)
      && (value != "" && |path| > 9 && path[9] != "" ==> |out[0].name| < |PathName(path) + key|)
  {
    var line := Line(|path|, key, value);
    var entered := Entered(names, line);
    NothingIsGreaterThanItself(Decimal(|path|));
    if |path| == 10 {
      TenthDeleted(|path|);
    }
    EnteredPartial(names, path, line);
    PrefixNoLonger(entered, path);
    forall i: nat ensures Get(Touched(entered, |path|), i) == Get(entered, i) {
      TouchedGet(entered, |path|, i);
    }
  }

  lemma EnteredPartial(names: Names, path: seq<string>, line: Line)
    requires Partial(names, path) && line.depth == |path|
    ensures Partial(Entered(names, line), path + [line.key])
    ensures Partial(Entered(names, line), path)
  {
    var entered := Entered(names, line);
    forall i: nat | i <= |path| ensures Get(entered, i) == (path + [line.key])[i] || Get(entered, i) == "" {
      if i < |path| {
        assert Get(names, i) == path[i] || Get(names, i) == "";
      }
    }
    forall i: nat | i < |path| ensures Get(entered, i) == path[i] || Get(entered, i) == "" {
      assert (path + [line.key])[i] == path[i];
    }
  }

  /** The length of all names together. */
  function NamesLength(out: seq<Assignment>): nat {
    if out == [] then 0 else |out[0].name| + NamesLength(out[1..])
  }

  lemma {:induction false} NamesLengthConcat(a: seq<Assignment>, b: seq<Assignment>)
    ensures NamesLength(a + b) == NamesLength(a) + NamesLength(b)
  {
    if a == [] {
      assert a + b == b;
    } else {
      assert (a + b)[1..] == a[1..] + b;
      NamesLengthConcat(a[1..], b);
    }
  }

  lemma PartialShorter(names: Names, path: seq<string>, key: string)
    requires Partial(names, path + [key]) && Lost(names, path + [key])
    ensures Partial(names, path) && Lost(names, path)
  {
    forall i: nat | i < |path| ensures Get(names, i) == path[i] || Get(names, i) == "" {
      assert (path + [key])[i] == path[i];
    }
  }

  ghost predicate Keyed(path: seq<string>) {
    forall i :: 0 <= i < |path| ==> path[i] != ""
  }

  /** The names printed for `lines` are not longer in all than those of `right` (shorter, if
      `strict`), and the array is left as it was for the path. */
  ghost predicate Loses(names: Names, lines: seq<Line>, right: seq<Assignment>, path: seq<string>, strict: bool) {
    var (names', out) := Run(names, lines);
    && Partial(names', path) && Lost(names', path)
    && NamesLength(out) <= NamesLength(right)
    && (strict ==> NamesLength(out) < NamesLength(right))
  }

  lemma LosesConcat(names: Names, a: seq<Line>, b: seq<Line>, ra: seq<Assignment>, rb: seq<Assignment>,
                    path: seq<string>, sa: bool, sb: bool)
    requires Loses(names, a, ra, path, sa) && Loses(Run(names, a).0, b, rb, path, sb)
    ensures Loses(names, a + b, ra + rb, path, sa || sb)
  {
    RunConcat(names, a, b);
    NamesLengthConcat(Run(names, a).1, Run(Run(names, a).0, b).1);
    NamesLengthConcat(ra, rb);
  }

  /** Over any forest the printed names are never longer in all than the right ones, and they
      are shorter as soon as a line is deeper than nine levels. */
  lemma {:induction false} ForestLosesNames(names: Names, forest: seq<Tree>, path: seq<string>)
    requires Valued(forest) && Full(forest) && Keyed(path)
    requires Partial(names, path) && Lost(names, path)
    ensures Loses(names, Print(forest, |path|), Leaves(forest, path), path, !Shallow(forest, |path|))
    decreases forest, 1
  {
    if forest == [] {
    } else {
      var first := Print([forest[0]], |path|);
      var deep := |path| > 9 || (forest[0].Node? && !Shallow(forest[0].children, |path| + 1));
      PrintSplit(forest, |path|);
      LeavesSplit(forest, path);
      TreeLosesNames(names, forest[0], path);
      ForestLosesNames(Run(names, first).0, forest[1..], path);
      LosesConcat(names, first, Print(forest[1..], |path|), Leaves([forest[0]], path), Leaves(forest[1..], path),
                  path, deep, !Shallow(forest[1..], |path|));
    }
  }

  lemma DeepChildren(children: seq<Tree>, depth: nat)
    requires children != []
    ensures depth > 9 ==> !Shallow(children, depth + 1)
  {
  }

  lemma {:induction false} TreeLosesNames(names: Names, tree: Tree, path: seq<string>)
    requires Valued([tree]) && Full([tree]) && Keyed(path)
    requires Partial(names, path) && Lost(names, path)
    ensures Loses(names, Print([tree], |path|), Leaves([tree], path), path,
                  |path| > 9 || (tree.Node? && !Shallow(tree.children, |path| + 1)))
    decreases tree, 1
  {
    PrintOne(tree, |path|);
    LeavesOne(tree, path);
    if tree.Leaf? {
      LeafLosesName(names, tree, path);
    } else {
      NodeLosesNames(names, tree.key, tree.children, path);
      DeepChildren(tree.children, |path|);
    }
  }

  lemma {:induction false} NodeLosesNames(names: Names, key: string, children: seq<Tree>, path: seq<string>)
    requires key != "" && children != [] && Valued(children) && Full(children) && Keyed(path)
    requires Partial(names, path) && Lost(names, path)
    ensures Loses(names, [Line(|path|, key, "")] + Print(children, |path| + 1), Leaves(children, path + [key]), path,
                  !Shallow(children, |path| + 1))
    decreases children, 2
  {
    var lines := Print(children, |path| + 1);
    var names1 := EnterNode(names, path, key, lines);
    ForestLosesNames(names1, children, path + [key]);
    LeaveNode(names, names1, lines, Leaves(children, path + [key]), path, key, !Shallow(children, |path| + 1));
  }

  lemma LeaveNode(names: Names, names1: Names, lines: seq<Line>, right: seq<Assignment>, path: seq<string>,
                  key: string, strict: bool)
    requires Run(names, [Line(|path|, key, "")] + lines) == Run(names1, lines)
    requires Loses(names1, lines, right, path + [key], strict)
    ensures Loses(names, [Line(|path|, key, "")] + lines, right, path, strict)
  {
    PartialShorter(Run(names1, lines).0, path, key);
  }

  lemma EnterNode(names: Names, path: seq<string>, key: string, lines: seq<Line>) returns (names1: Names)
    requires Partial(names, path) && Lost(names, path)
    ensures Partial(names1, path + [key]) && Lost(names1, path + [key])
    ensures Run(names, [Line(|path|, key, "")] + lines) == Run(names1, lines)
  {
    names1 := Step(names, Line(|path|, key, "")).0;
    StepDeep(names, path, key, "");
    RunUnder(names, Line(|path|, key, ""), lines);
  }

  lemma LeafLosesName(names: Names, leaf: Tree, path: seq<string>)
    requires leaf.Leaf? && leaf.value != "" && Keyed(path)
    requires Partial(names, path) && Lost(names, path)
    ensures Loses(names, [Line(|path|, leaf.key, leaf.value)],
                  [Assignment(PathName(path) + leaf.key, leaf.value)], path, |path| > 9)
  {
    var line := Line(|path|, leaf.key, leaf.value);
    StepDeep(names, path, leaf.key, leaf.value);
    RunOne(names, line);
    PartialShorter(Step(names, line).0, path, leaf.key);
    OneName(Step(names, line).1);
    OneName([Assignment(PathName(path) + leaf.key, leaf.value)]);
  }

  lemma OneName(out: seq<Assignment>)
    requires |out| == 1
    ensures NamesLength(out) == |out[0].name|
  {
    assert out[1..] == [];
  }

  /** Every printed tree of mappings with values and without empty parts is read back, leaf by
      leaf in preorder and each under its full path, exactly when no line of it is deeper than
      nine levels. */
  lemma TreeRoundTrip(forest: seq<Tree>)
    requires Valued(forest) && Full(forest)
    ensures Run(map[], Print(forest, 0)).1 == Leaves(forest, []) <==> Shallow(forest, 0)
  {
    if Shallow(forest, 0) {
      ForestRoundTrip(map[], forest, []);
    } else {
      ForestLosesNames(map[], forest, []);
    }
  }

  /** The half that also holds of trees with empty keys and empty mappings. */
  lemma ShallowRoundTrip(forest: seq<Tree>)
    requires Valued(forest) && Shallow(forest, 0)
    ensures Run(map[], Print(forest, 0)).1 == Leaves(forest, [])
  {
    ForestRoundTrip(map[], forest, []);
  }
}
