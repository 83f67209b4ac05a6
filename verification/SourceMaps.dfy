/** What filterMap makes of a source map, given declaratively: which segments survive,
    and numbers assigned by first use. Decoded segments stand for the `mappings`
    string. SourceMapFilter computes the same in one stateful pass. */
module SourceMaps {
  import opened Prelude

  /** A JSON array slot: null, or absent because the index is out of range, is None. */
  type Text = Option<string>

  datatype Segment =
    | Bare(column: nat)
    | Mapped(column: nat, source: nat, line: nat, origin: nat)
    | Named(column: nat, source: nat, line: nat, origin: nat, name: nat)

  type Line = seq<Segment>

  datatype SourceMap = SourceMap(sources: seq<Text>, contents: Option<seq<Text>>, names: seq<Text>,
                                 lines: seq<Line>, ignore: Option<seq<nat>>, rest: map<string, string>)

  function At(xs: seq<Text>, i: nat): Text {
    if i < |xs| then xs[i] else None
  }

  function Pick(xs: seq<Text>, kept: seq<nat>): seq<Text> {
    seq(|kept|, i requires 0 <= i < |kept| => At(xs, kept[i]))
  }

  // ---- Renumbering ---------------------------------------------------------------

  /** From an old index to its position in the list of kept ones. */
  function Positions(kept: seq<nat>): (index: map<nat, nat>)
    ensures forall x :: x in index <==> x in kept
    ensures forall x :: x in index ==> index[x] < |kept| && kept[index[x]] == x
    ensures Distinct(kept) ==> forall i :: 0 <= i < |kept| ==> kept[i] in index && index[kept[i]] == i
  {
    if kept == [] then map[]
    else
      var k := |kept| - 1;
      assert kept == kept[..k] + [kept[k]];
      Positions(kept[..k])[kept[k] := k]
  }

  /** The distinct numbers of a list in the order of their first use. */
  function FirstUses(xs: seq<nat>): (ys: seq<nat>)
    ensures Distinct(ys)
    ensures forall x :: x in ys <==> x in xs
  {
    if xs == [] then []
    else
      var k := |xs| - 1;
      assert xs == xs[..k] + [xs[k]];
      var earlier := FirstUses(xs[..k]);
      if xs[k] in earlier then earlier else earlier + [xs[k]]
  }

  /** Looking a number up, with 0 where there is none to find. */
  function Renumber(index: map<nat, nat>, x: nat): nat {
    if x in index then index[x] else 0
  }

  // ---- The filter -------------------------------------------------------------------

  predicate Survives(s: Segment, index: map<nat, nat>) {
    s.Bare? || s.source in index
  }

  function Remap(s: Segment, index: map<nat, nat>, names: map<nat, nat>): Segment {
    match s
    case Bare(column) => s
    case Mapped(column, source, line, origin) => Mapped(column, Renumber(index, source), line, origin)
    case Named(column, source, line, origin, name) =>
      Named(column, Renumber(index, source), line, origin, Renumber(names, name))
  }

  function Survivors(line: Line, index: map<nat, nat>): Line {
    if line == [] then []
    else
      var last := line[|line| - 1];
      Survivors(line[..|line| - 1], index) + if Survives(last, index) then [last] else []
  }

  function RemapLine(line: Line, index: map<nat, nat>, names: map<nat, nat>): Line {
    if line == [] then []
    else
      var last := line[|line| - 1];
      RemapLine(line[..|line| - 1], index, names) + if Survives(last, index) then [Remap(last, index, names)] else []
  }

  function RemapLines(lines: seq<Line>, index: map<nat, nat>, names: map<nat, nat>): seq<Line> {
    seq(|lines|, i requires 0 <= i < |lines| => RemapLine(lines[i], index, names))
  }

  /** The name numbers of the surviving segments, in order. */
  function LineNames(line: Line, index: map<nat, nat>): seq<nat> {
    if line == [] then []
    else
      var last := line[|line| - 1];
      LineNames(line[..|line| - 1], index) + if last.Named? && Survives(last, index) then [last.name] else []
  }

  function AllNames(lines: seq<Line>, index: map<nat, nat>): seq<nat> {
    if lines == [] then []
    else AllNames(lines[..|lines| - 1], index) + LineNames(lines[|lines| - 1], index)
  }

  function KeptNames(m: SourceMap, kept: seq<nat>): seq<nat> {
    FirstUses(AllNames(m.lines, Positions(kept)))
  }

  function KeptIgnores(ignore: seq<nat>, index: map<nat, nat>): seq<nat> {
    if ignore == [] then []
    else
      var last := ignore[|ignore| - 1];
      KeptIgnores(ignore[..|ignore| - 1], index) + if last in index then [index[last]] else []
  }

  function Filter(m: SourceMap, kept: seq<nat>): SourceMap {
    var index, keptNames := Positions(kept), KeptNames(m, kept);
    m.(sources := Pick(m.sources, kept),
       names := Pick(m.names, keptNames),
       lines := RemapLines(m.lines, index, Positions(keptNames)),
       contents := if m.contents.Some? then Some(Pick(m.contents.value, kept)) else None,
       ignore := if m.ignore.Some? then Some(KeptIgnores(m.ignore.value, index)) else None)
  }

  // ---- One element more ----------------------------------------------------------------

  lemma RemapSnoc(line: Line, s: Segment, index: map<nat, nat>, names: map<nat, nat>)
    ensures RemapLine(line + [s], index, names)
         == RemapLine(line, index, names) + if Survives(s, index) then [Remap(s, index, names)] else []
    ensures LineNames(line + [s], index)
         == LineNames(line, index) + if s.Named? && Survives(s, index) then [s.name] else []
  {
    assert (line + [s])[..|line + [s]| - 1] == line;
  }

  lemma AllNamesSnoc(lines: seq<Line>, line: Line, index: map<nat, nat>)
    ensures AllNames(lines + [line], index) == AllNames(lines, index) + LineNames(line, index)
  {
    assert (lines + [line])[..|lines + [line]| - 1] == lines;
  }

  function RenumberAll(xs: seq<nat>, index: map<nat, nat>): seq<nat> {
    seq(|xs|, i requires 0 <= i < |xs| => Renumber(index, xs[i]))
  }

  lemma RenumberAppend(xs: seq<nat>, ys: seq<nat>, index: map<nat, nat>)
    ensures RenumberAll(xs + ys, index) == RenumberAll(xs, index) + RenumberAll(ys, index)
  {
  }

  lemma FirstUsesSnoc(xs: seq<nat>, x: nat)
    ensures FirstUses(xs + [x]) == if x in xs then FirstUses(xs) else FirstUses(xs) + [x]
  {
    assert (xs + [x])[..|xs + [x]| - 1] == xs;
  }

  // ---- Filtering twice ------------------------------------------------------------------

  function Compose(first: seq<nat>, second: seq<nat>): seq<nat>
    requires forall i :: 0 <= i < |second| ==> second[i] < |first|
  {
    seq(|second|, i requires 0 <= i < |second| => first[second[i]])
  }

  ghost predicate Composes(p: map<nat, nat>, q: map<nat, nat>, both: map<nat, nat>) {
    forall x :: (x in both <==> x in p && p[x] in q) && (x in both ==> both[x] == q[p[x]])
  }

  lemma ComposeDistinct(first: seq<nat>, second: seq<nat>)
    requires Distinct(first) && Distinct(second) && forall i :: 0 <= i < |second| ==> second[i] < |first|
    ensures Distinct(Compose(first, second))
  {
    assert forall i, j :: 0 <= i < j < |second| ==> second[i] != second[j];
  }

  lemma ComposedPosition(first: seq<nat>, second: seq<nat>, x: nat)
    requires Distinct(first) && Distinct(second) && forall i :: 0 <= i < |second| ==> second[i] < |first|
    requires Distinct(Compose(first, second))
    ensures var p, q, both := Positions(first), Positions(second), Positions(Compose(first, second));
            (x in both <==> x in p && p[x] in q) && (x in both ==> both[x] == q[p[x]])
  {
    var once := Compose(first, second);
    var p, q, both := Positions(first), Positions(second), Positions(once);
    if x in both {
      var i := both[x];
      assert once[i] == first[second[i]] == x;
      assert p[x] == second[i] && q[second[i]] == i;
    }
    if x in p && p[x] in q {
      assert once[q[p[x]]] == x;
    }
  }

  lemma ComposedPositions(first: seq<nat>, second: seq<nat>)
    requires Distinct(first) && Distinct(second) && forall i :: 0 <= i < |second| ==> second[i] < |first|
    ensures Distinct(Compose(first, second))
    ensures Composes(Positions(first), Positions(second), Positions(Compose(first, second)))
  {
    ComposeDistinct(first, second);
    forall x ensures var p, q, both := Positions(first), Positions(second), Positions(Compose(first, second));
                     (x in both <==> x in p && p[x] in q) && (x in both ==> both[x] == q[p[x]])
    {
      ComposedPosition(first, second, x);
    }
  }

  ghost predicate NamesCompose(names: seq<nat>, n1: map<nat, nat>, n2: map<nat, nat>, n12: map<nat, nat>) {
    forall n :: n in names ==> Renumber(n2, Renumber(n1, n)) == Renumber(n12, n)
  }

  lemma SegmentTwice(s: Segment, p: map<nat, nat>, q: map<nat, nat>, both: map<nat, nat>,
                     n1: map<nat, nat>, n2: map<nat, nat>, n12: map<nat, nat>)
    requires Composes(p, q, both)
    ensures Survives(s, both) <==> Survives(s, p) && Survives(Remap(s, p, n1), q)
    ensures Survives(s, both) && (s.Named? ==> Renumber(n2, Renumber(n1, s.name)) == Renumber(n12, s.name)) ==>
              Remap(Remap(s, p, n1), q, n2) == Remap(s, both, n12)
  {
    if !s.Bare? { assert s.source in both <==> s.source in p && p[s.source] in q; }
  }

  lemma {:induction false} LineTwice(line: Line, p: map<nat, nat>, q: map<nat, nat>, both: map<nat, nat>,
                                     n1: map<nat, nat>, n2: map<nat, nat>, n12: map<nat, nat>)
    requires Composes(p, q, both) && NamesCompose(LineNames(line, both), n1, n2, n12)
    ensures RemapLine(RemapLine(line, p, n1), q, n2) == RemapLine(line, both, n12)
  {
    if line != [] {
      var before, last := line[..|line| - 1], line[|line| - 1];
      assert line == before + [last];
      RemapSnoc(before, last, p, n1);
      RemapSnoc(before, last, both, n12);
      assert NamesCompose(LineNames(before, both), n1, n2, n12);
      LineTwice(before, p, q, both, n1, n2, n12);
      var once := RemapLine(before, p, n1);
      RemapSnoc(once, Remap(last, p, n1), q, n2);
      assert once + [] == once;
      if last.Named? && Survives(last, both) {
        assert last.name in LineNames(line, both);
      }
      SegmentTwice(last, p, q, both, n1, n2, n12);
      assert RemapLine(line, p, n1) == once + if Survives(last, p) then [Remap(last, p, n1)] else [];
    }
  }

  lemma {:induction false} LineNamesTwice(line: Line, p: map<nat, nat>, q: map<nat, nat>, both: map<nat, nat>,
                                          n1: map<nat, nat>)
    requires Composes(p, q, both)
    ensures LineNames(RemapLine(line, p, n1), q) == RenumberAll(LineNames(line, both), n1)
  {
    if line != [] {
      var before, last := line[..|line| - 1], line[|line| - 1];
      assert line == before + [last];
      LineNamesTwice(before, p, q, both, n1);
      RemapSnoc(before, last, p, n1);
      RemapSnoc(before, last, both, n1);
      LastNameTwice(RemapLine(before, p, n1), LineNames(before, both), last, p, q, both, n1);
    }
  }

  lemma LastNameTwice(once: Line, used: seq<nat>, last: Segment, p: map<nat, nat>, q: map<nat, nat>,
                      both: map<nat, nat>, n1: map<nat, nat>)
    requires Composes(p, q, both) && LineNames(once, q) == RenumberAll(used, n1)
    ensures LineNames(once + if Survives(last, p) then [Remap(last, p, n1)] else [], q)
         == RenumberAll(used + if last.Named? && Survives(last, both) then [last.name] else [], n1)
  {
    RemapSnoc(once, Remap(last, p, n1), q, n1);
    SegmentTwice(last, p, q, both, n1, n1, n1);
    assert once + [] == once && used + [] == used;
    if last.Named? { RenumberSnoc(used, last.name, n1); }
  }

  lemma {:induction false} AllNamesTwice(lines: seq<Line>, p: map<nat, nat>, q: map<nat, nat>, both: map<nat, nat>,
                                         n1: map<nat, nat>)
    requires Composes(p, q, both)
    ensures AllNames(RemapLines(lines, p, n1), q) == RenumberAll(AllNames(lines, both), n1)
  {
    if lines != [] {
      var k := |lines| - 1;
      AllNamesTwice(lines[..k], p, q, both, n1);
      LineNamesTwice(lines[k], p, q, both, n1);
      assert RemapLines(lines, p, n1) == RemapLines(lines[..k], p, n1) + [RemapLine(lines[k], p, n1)];
      AllNamesSnoc(RemapLines(lines[..k], p, n1), RemapLine(lines[k], p, n1), q);
      RenumberAppend(AllNames(lines[..k], both), LineNames(lines[k], both), n1);
    }
  }

  lemma RenumberedMember(xs: seq<nat>, keys: seq<nat>, x: nat)
    requires Distinct(keys) && x in keys && forall y :: y in xs ==> y in keys
    ensures Renumber(Positions(keys), x) in RenumberAll(xs, Positions(keys)) <==> x in xs
  {
    var index := Positions(keys);
    if x in xs {
      var i :| 0 <= i < |xs| && xs[i] == x;
      assert RenumberAll(xs, index)[i] == Renumber(index, x);
    }
    if Renumber(index, x) in RenumberAll(xs, index) {
      var i :| 0 <= i < |xs| && RenumberAll(xs, index)[i] == Renumber(index, x);
      assert keys[index[xs[i]]] == xs[i] && keys[index[x]] == x;
    }
  }

  lemma RenumberSnoc(xs: seq<nat>, x: nat, index: map<nat, nat>)
    ensures RenumberAll(xs + [x], index) == RenumberAll(xs, index) + [Renumber(index, x)]
  {
  }

  /** First uses commute with a renumbering that keeps different numbers different. */
  lemma {:induction false} FirstUsesRenumbered(xs: seq<nat>, keys: seq<nat>)
    requires Distinct(keys) && forall x :: x in xs ==> x in keys
    ensures FirstUses(RenumberAll(xs, Positions(keys))) == RenumberAll(FirstUses(xs), Positions(keys))
  {
    if xs != [] {
      var index := Positions(keys);
      var before, last := xs[..|xs| - 1], xs[|xs| - 1];
      assert xs == before + [last];
      FirstUsesRenumbered(before, keys);
      RenumberedMember(before, keys, last);
      RenumberSnoc(before, last, index);
      RenumberSnoc(FirstUses(before), last, index);
      FirstUsesSnoc(before, last);
      FirstUsesSnoc(RenumberAll(before, index), Renumber(index, last));
    }
  }

  lemma RenumberedIsCompose(xs: seq<nat>, keys: seq<nat>)
    requires Distinct(keys) && Distinct(xs) && forall x :: x in xs ==> x in keys
    ensures var again := RenumberAll(xs, Positions(keys));
            && (forall i :: 0 <= i < |again| ==> again[i] < |keys|)
            && Distinct(again) && Compose(keys, again) == xs
  {
    var again := RenumberAll(xs, Positions(keys));
    forall i | 0 <= i < |xs| ensures again[i] < |keys| && keys[again[i]] == xs[i] {
      assert xs[i] in xs;
    }
  }

  lemma {:induction false} FewerNames(line: Line, p: map<nat, nat>, both: map<nat, nat>, n: nat)
    requires forall x :: x in both ==> x in p
    requires n in LineNames(line, both)
    ensures n in LineNames(line, p)
  {
    if n !in LineNames(line[..|line| - 1], both) {
    } else {
      FewerNames(line[..|line| - 1], p, both, n);
    }
  }

  lemma {:induction false} FewerNamesInAll(lines: seq<Line>, p: map<nat, nat>, both: map<nat, nat>, n: nat)
    requires forall x :: x in both ==> x in p
    requires n in AllNames(lines, both)
    ensures n in AllNames(lines, p)
  {
    var k := |lines| - 1;
    if n in AllNames(lines[..k], both) {
      FewerNamesInAll(lines[..k], p, both, n);
    } else {
      FewerNames(lines[k], p, both, n);
    }
  }

  lemma PickTwice(xs: seq<Text>, first: seq<nat>, second: seq<nat>)
    requires forall i :: 0 <= i < |second| ==> second[i] < |first|
    ensures Pick(Pick(xs, first), second) == Pick(xs, Compose(first, second))
  {
  }

  lemma {:induction false} IgnoresTwice(ignore: seq<nat>, p: map<nat, nat>, q: map<nat, nat>, both: map<nat, nat>)
    requires Composes(p, q, both)
    ensures KeptIgnores(KeptIgnores(ignore, p), q) == KeptIgnores(ignore, both)
  {
    if ignore != [] {
      var before, last := ignore[..|ignore| - 1], ignore[|ignore| - 1];
      IgnoresTwice(before, p, q, both);
      assert last in both <==> last in p && p[last] in q;
      var once := KeptIgnores(before, p);
      assert once + [] == once;
      if last in p {
        assert (once + [p[last]])[..|once|] == once;
      }
    }
  }

  lemma {:induction false} LineNamesInAll(lines: seq<Line>, index: map<nat, nat>, i: nat, n: nat)
    requires i < |lines| && n in LineNames(lines[i], index)
    ensures n in AllNames(lines, index)
  {
    var k := |lines| - 1;
    if i < k {
      LineNamesInAll(lines[..k], index, i, n);
    }
  }

  lemma NamesOfTwice(m: SourceMap, first: seq<nat>, second: seq<nat>)
    requires Distinct(first) && Distinct(second) && forall i :: 0 <= i < |second| ==> second[i] < |first|
    ensures var keys, used := KeptNames(m, first), KeptNames(m, Compose(first, second));
            var again := KeptNames(Filter(m, first), second);
            && Distinct(again) && (forall i :: 0 <= i < |again| ==> again[i] < |keys|)
            && Compose(keys, again) == used
  {
    var p, q, r := Positions(first), Positions(second), Positions(Compose(first, second));
    var keys, used := KeptNames(m, first), KeptNames(m, Compose(first, second));
    ComposedPositions(first, second);
    AllNamesTwice(m.lines, p, q, r, Positions(keys));
    forall n | n in AllNames(m.lines, r) ensures n in keys {
      FewerNamesInAll(m.lines, p, r, n);
    }
    FirstUsesRenumbered(AllNames(m.lines, r), keys);
    RenumberedIsCompose(used, keys);
  }

  /** Keeping some sources and then some of those is keeping the composed list: the
      segments, sources, contents, ignore list and first-use numbering all agree. */
  lemma FilterTwice(m: SourceMap, first: seq<nat>, second: seq<nat>)
    requires Distinct(first) && Distinct(second) && forall i :: 0 <= i < |second| ==> second[i] < |first|
    ensures Filter(Filter(m, first), second) == Filter(m, Compose(first, second))
  {
    var both := Compose(first, second);
    var p, q, r := Positions(first), Positions(second), Positions(both);
    var keys, used, again := KeptNames(m, first), KeptNames(m, both), KeptNames(Filter(m, first), second);
    ComposedPositions(first, second);
    PickTwice(m.sources, first, second);
    if m.contents.Some? { PickTwice(m.contents.value, first, second); }
    if m.ignore.Some? { IgnoresTwice(m.ignore.value, p, q, r); }
    NamesOfTwice(m, first, second);
    PickTwice(m.names, keys, again);
    ComposedPositions(keys, again);
    LinesTwice(m.lines, p, q, r, Positions(keys), Positions(again), Positions(used));
  }

  lemma LinesTwice(lines: seq<Line>, p: map<nat, nat>, q: map<nat, nat>, both: map<nat, nat>,
                   n1: map<nat, nat>, n2: map<nat, nat>, n12: map<nat, nat>)
    requires Composes(p, q, both) && Composes(n1, n2, n12)
    requires forall n :: n in AllNames(lines, both) ==> n in n12
    ensures RemapLines(RemapLines(lines, p, n1), q, n2) == RemapLines(lines, both, n12)
  {
    forall i | 0 <= i < |lines|
      ensures RemapLine(RemapLine(lines[i], p, n1), q, n2) == RemapLine(lines[i], both, n12)
    {
      forall n | n in LineNames(lines[i], both) ensures Renumber(n2, Renumber(n1, n)) == Renumber(n12, n) {
        LineNamesInAll(lines, both, i, n);
      }
      LineTwice(lines[i], p, q, both, n1, n2, n12);
    }
  }
}
