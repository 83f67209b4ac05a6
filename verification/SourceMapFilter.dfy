/** filterMap as it runs: one pass over the segments that hands out name numbers as
    it meets them. It computes the declarative Filter. */
module SourceMapFilter {
  import opened Prelude
  import opened SourceMaps

  lemma PositionsSnoc(xs: seq<nat>, x: nat)
    ensures Positions(xs + [x]) == Positions(xs)[x := |xs|]
  {
    assert (xs + [x])[..|xs + [x]| - 1] == xs;
  }

  /** A number already handed out never changes, so lines done keep their segments. */
  lemma {:induction false} RemapStable(line: Line, index: map<nat, nat>, a: map<nat, nat>, b: map<nat, nat>)
    requires forall n :: n in LineNames(line, index) ==> Renumber(a, n) == Renumber(b, n)
    ensures RemapLine(line, index, a) == RemapLine(line, index, b)
  {
    if line != [] {
      var before, last := line[..|line| - 1], line[|line| - 1];
      assert forall n :: n in LineNames(before, index) ==> n in LineNames(line, index);
      RemapStable(before, index, a, b);
      if last.Named? && Survives(last, index) { assert last.name in LineNames(line, index); }
    }
  }

  lemma RemapLinesStable(lines: seq<Line>, index: map<nat, nat>, a: map<nat, nat>, b: map<nat, nat>)
    requires forall n :: n in AllNames(lines, index) ==> Renumber(a, n) == Renumber(b, n)
    ensures RemapLines(lines, index, a) == RemapLines(lines, index, b)
  {
    forall i | 0 <= i < |lines| ensures RemapLine(lines[i], index, a) == RemapLine(lines[i], index, b) {
      forall n | n in LineNames(lines[i], index) ensures Renumber(a, n) == Renumber(b, n) {
        LineNamesInAll(lines, index, i, n);
      }
      RemapStable(lines[i], index, a, b);
    }
  }

  /** What stands after some lines and part of the next one. */
  ghost predicate Done(lines: seq<Line>, line: Line, index: map<nat, nat>,
                       keptNames: seq<nat>, nameIndex: map<nat, nat>, remapped: seq<Line>, segments: Line) {
    && keptNames == FirstUses(AllNames(lines, index) + LineNames(line, index))
    && nameIndex == Positions(keptNames)
    && remapped == RemapLines(lines, index, nameIndex)
    && segments == RemapLine(line, index, nameIndex)
  }

  lemma NewName(lines: seq<Line>, line: Line, index: map<nat, nat>,
                keptNames: seq<nat>, nameIndex: map<nat, nat>, remapped: seq<Line>, segments: Line, n: nat)
    requires Done(lines, line, index, keptNames, nameIndex, remapped, segments) && n !in nameIndex
    ensures FirstUses(AllNames(lines, index) + LineNames(line, index) + [n]) == keptNames + [n]
    ensures nameIndex[n := |keptNames|] == Positions(keptNames + [n])
    ensures remapped == RemapLines(lines, index, nameIndex[n := |keptNames|])
    ensures segments == RemapLine(line, index, nameIndex[n := |keptNames|])
  {
    var used := AllNames(lines, index) + LineNames(line, index);
    assert forall x :: x in used ==> x in keptNames && x in nameIndex;
    FirstUsesSnoc(used, n);
    PositionsSnoc(keptNames, n);
    RemapLinesStable(lines, index, nameIndex, nameIndex[n := |keptNames|]);
    RemapStable(line, index, nameIndex, nameIndex[n := |keptNames|]);
  }

  lemma UnnamedStep(lines: seq<Line>, line: Line, index: map<nat, nat>,
                    keptNames: seq<nat>, nameIndex: map<nat, nat>, remapped: seq<Line>, segments: Line, s: Segment)
    requires Done(lines, line, index, keptNames, nameIndex, remapped, segments) && !(s.Named? && Survives(s, index))
    ensures Done(lines, line + [s], index, keptNames, nameIndex, remapped,
                 segments + if Survives(s, index) then [Remap(s, index, nameIndex)] else [])
  {
    RemapSnoc(line, s, index, nameIndex);
    assert LineNames(line, index) + [] == LineNames(line, index);
  }

  lemma UsedSnoc(lines: seq<Line>, line: Line, index: map<nat, nat>, s: Segment)
    requires s.Named? && Survives(s, index)
    ensures AllNames(lines, index) + LineNames(line + [s], index) ==
              AllNames(lines, index) + LineNames(line, index) + [s.name]
  {
    RemapSnoc(line, s, index, map[]);
  }

  lemma SeenName(used: seq<nat>, n: nat)
    requires n in FirstUses(used)
    ensures FirstUses(used + [n]) == FirstUses(used)
  {
    FirstUsesSnoc(used, n);
  }

  lemma SeenNameStep(lines: seq<Line>, line: Line, index: map<nat, nat>,
                     keptNames: seq<nat>, nameIndex: map<nat, nat>, remapped: seq<Line>, segments: Line, s: Segment)
    requires Done(lines, line, index, keptNames, nameIndex, remapped, segments)
    requires s.Named? && Survives(s, index) && s.name in nameIndex
    ensures Done(lines, line + [s], index, keptNames, nameIndex, remapped, segments + [Remap(s, index, nameIndex)])
  {
    RemapSnoc(line, s, index, nameIndex);
    UsedSnoc(lines, line, index, s);
    SeenName(AllNames(lines, index) + LineNames(line, index), s.name);
  }

  lemma NewNameStep(lines: seq<Line>, line: Line, index: map<nat, nat>,
                    keptNames: seq<nat>, nameIndex: map<nat, nat>, remapped: seq<Line>, segments: Line, s: Segment)
    requires Done(lines, line, index, keptNames, nameIndex, remapped, segments)
    requires s.Named? && Survives(s, index) && s.name !in nameIndex
    ensures var numbers := nameIndex[s.name := |keptNames|];
            Done(lines, line + [s], index, keptNames + [s.name], numbers, remapped,
                 segments + [Remap(s, index, numbers)])
  {
    RemapSnoc(line, s, index, nameIndex[s.name := |keptNames|]);
    UsedSnoc(lines, line, index, s);
    NewName(lines, line, index, keptNames, nameIndex, remapped, segments, s.name);
  }

  /** The reduction of one line; the numbering is shared with the lines before it. */
  method FilterLine(ghost lines: seq<Line>, line: Line, newIndexOf: map<nat, nat>,
                    names: seq<nat>, nameIndex: map<nat, nat>, ghost remapped: seq<Line>)
    returns (segments: Line, keptNameIndices: seq<nat>, newNameIndexOf: map<nat, nat>)
    requires Done(lines, [], newIndexOf, names, nameIndex, remapped, [])
    ensures Done(lines, line, newIndexOf, keptNameIndices, newNameIndexOf, remapped, segments)
  {
    segments, keptNameIndices, newNameIndexOf := [], names, nameIndex;
    for j := 0 to |line|
      invariant Done(lines, line[..j], newIndexOf, keptNameIndices, newNameIndexOf, remapped, segments)
    {
      var segment := line[j];
      assert line[..j + 1] == line[..j] + [segment];
      if !(segment.Named? && segment.source in newIndexOf) {
        UnnamedStep(lines, line[..j], newIndexOf, keptNameIndices, newNameIndexOf, remapped, segments, segment);
        assert segments + [] == segments;
      } else if segment.name in newNameIndexOf {
        SeenNameStep(lines, line[..j], newIndexOf, keptNameIndices, newNameIndexOf, remapped, segments, segment);
      } else {
        NewNameStep(lines, line[..j], newIndexOf, keptNameIndices, newNameIndexOf, remapped, segments, segment);
      }
      if segment.Bare? {
        segments := segments + [segment];
        continue;
      }
      if segment.source !in newIndexOf { continue; }
      if segment.Mapped? {
        segments := segments + [Mapped(segment.column, newIndexOf[segment.source], segment.line, segment.origin)];
        continue;
      }
      if segment.name !in newNameIndexOf {
        newNameIndexOf := newNameIndexOf[segment.name := |keptNameIndices|];
        keptNameIndices := keptNameIndices + [segment.name];
      }
      segments := segments + [Named(segment.column, newIndexOf[segment.source], segment.line, segment.origin,
                                    newNameIndexOf[segment.name])];
    }
    assert line[..|line|] == line;
  }

  /** All lines, with one name numbering running through them. */
  method RemapAll(lines: seq<Line>, newIndexOf: map<nat, nat>) returns (remapped: seq<Line>, keptNameIndices: seq<nat>)
    ensures keptNameIndices == FirstUses(AllNames(lines, newIndexOf))
    ensures remapped == RemapLines(lines, newIndexOf, Positions(keptNameIndices))
  {
    keptNameIndices, remapped := [], [];
    var newNameIndexOf: map<nat, nat> := map[];
    for i := 0 to |lines|
      invariant Done(lines[..i], [], newIndexOf, keptNameIndices, newNameIndexOf, remapped, [])
    {
      var segments;
      segments, keptNameIndices, newNameIndexOf :=
        FilterLine(lines[..i], lines[i], newIndexOf, keptNameIndices, newNameIndexOf, remapped);
      LineDone(lines, i, newIndexOf, keptNameIndices, newNameIndexOf, remapped, segments);
      remapped := remapped + [segments];
    }
    assert lines[..|lines|] == lines;
    assert AllNames(lines, newIndexOf) + [] == AllNames(lines, newIndexOf);
  }

  lemma RemapLinesSnoc(lines: seq<Line>, line: Line, index: map<nat, nat>, names: map<nat, nat>)
    ensures RemapLines(lines + [line], index, names) ==
              RemapLines(lines, index, names) + [RemapLine(line, index, names)]
  {
  }

  lemma LineDone(lines: seq<Line>, i: nat, index: map<nat, nat>,
                 keptNames: seq<nat>, nameIndex: map<nat, nat>, remapped: seq<Line>, segments: Line)
    requires i < |lines| && Done(lines[..i], lines[i], index, keptNames, nameIndex, remapped, segments)
    ensures Done(lines[..i + 1], [], index, keptNames, nameIndex, remapped + [segments], [])
  {
    assert lines[..i + 1] == lines[..i] + [lines[i]];
    AllNamesSnoc(lines[..i], lines[i], index);
    RemapLinesSnoc(lines[..i], lines[i], index, nameIndex);
    assert AllNames(lines[..i + 1], index) + [] == AllNames(lines[..i + 1], index);
  }

  method IndexSources(keptIndices: seq<nat>) returns (newIndexOf: map<nat, nat>)
    ensures newIndexOf == Positions(keptIndices)
  {
    newIndexOf := map[];
    for newIndex := 0 to |keptIndices|
      invariant newIndexOf == Positions(keptIndices[..newIndex])
    {
      assert keptIndices[..newIndex + 1] == keptIndices[..newIndex] + [keptIndices[newIndex]];
      PositionsSnoc(keptIndices[..newIndex], keptIndices[newIndex]);
      newIndexOf := newIndexOf[keptIndices[newIndex] := newIndex];
    }
    assert keptIndices[..|keptIndices|] == keptIndices;
  }

  method KeepIgnores(list: seq<nat>, newIndexOf: map<nat, nat>) returns (ignore: seq<nat>)
    ensures ignore == KeptIgnores(list, newIndexOf)
  {
    ignore := [];
    for i := 0 to |list|
      invariant ignore == KeptIgnores(list[..i], newIndexOf)
    {
      assert list[..i + 1][..i] == list[..i];
      if list[i] in newIndexOf { ignore := ignore + [newIndexOf[list[i]]]; }
    }
    assert list[..|list|] == list;
  }

  method FilterMap(m: SourceMap, keptIndices: seq<nat>) returns (filtered: SourceMap)
    ensures filtered == Filter(m, keptIndices)
  {
    var newIndexOf := IndexSources(keptIndices);
    var remapped, keptNameIndices := RemapAll(m.lines, newIndexOf);
    filtered := m.(sources := Pick(m.sources, keptIndices), names := Pick(m.names, keptNameIndices), lines := remapped);
    if m.contents.Some? {
      filtered := filtered.(contents := Some(Pick(m.contents.value, keptIndices)));
    }
    if m.ignore.Some? {
      var ignore := KeepIgnores(m.ignore.value, newIndexOf);
      filtered := filtered.(ignore := Some(ignore));
    }
  }
}
