/** What a consumer reads out of a filtered map: resolving a generated position, and
    the index ranges it relies on. */
module SourceMapLookup {
  import opened Prelude
  import opened SourceMaps

  /** Where a generated position comes from: the source with its content, and whether the
      map marks it as third-party code. */
  datatype Origin = Origin(source: Text, content: Text, ignored: bool)

  datatype Position = Nowhere | Somewhere(from: Origin, line: nat, column: nat, name: Text)

  function OriginOf(m: SourceMap, source: nat): Origin {
    Origin(At(m.sources, source), if m.contents.Some? then At(m.contents.value, source) else None,
           m.ignore.Some? && source in m.ignore.value)
  }

  /** The last segment at or before a generated column. */
  function LastAt(line: Line, column: nat): Option<Segment> {
    if line == [] then None
    else
      var last := line[|line| - 1];
      if last.column <= column then Some(last) else LastAt(line[..|line| - 1], column)
  }

  function Resolve(m: SourceMap, hit: Option<Segment>): Position {
    if hit.None? then Nowhere
    else match hit.value
      case Bare(_) => Nowhere
      case Mapped(_, source, line, origin) => Somewhere(OriginOf(m, source), line, origin, None)
      case Named(_, source, line, origin, name) => Somewhere(OriginOf(m, source), line, origin, At(m.names, name))
  }

  function OriginalPosition(m: SourceMap, line: nat, column: nat): Position {
    if line < |m.lines| then Resolve(m, LastAt(m.lines[line], column)) else Nowhere
  }

  // ---- Through the filter -----------------------------------------------------------

  lemma LastAtSnoc(line: Line, s: Segment, column: nat)
    ensures LastAt(line + [s], column) == if s.column <= column then Some(s) else LastAt(line, column)
    ensures LastAt(line + [], column) == LastAt(line, column)
  {
    assert (line + [s])[..|line + [s]| - 1] == line;
    assert line + [] == line;
  }

  function RemapHit(hit: Option<Segment>, index: map<nat, nat>, names: map<nat, nat>): Option<Segment> {
    if hit.Some? then Some(Remap(hit.value, index, names)) else None
  }

  lemma {:induction false} LastAtRemapped(line: Line, column: nat, index: map<nat, nat>, names: map<nat, nat>)
    ensures LastAt(RemapLine(line, index, names), column) ==
              RemapHit(LastAt(Survivors(line, index), column), index, names)
  {
    if line != [] {
      var before, last := line[..|line| - 1], line[|line| - 1];
      LastAtRemapped(before, column, index, names);
      LastAtSnoc(Survivors(before, index), last, column);
      LastAtSnoc(RemapLine(before, index, names), Remap(last, index, names), column);
    }
  }

  lemma {:induction false} LastSurvivorSurvives(line: Line, column: nat, index: map<nat, nat>)
    ensures var hit := LastAt(Survivors(line, index), column);
            hit.Some? ==> Survives(hit.value, index) && (hit.value.Named? ==> hit.value.name in LineNames(line, index))
  {
    if line != [] {
      var before, last := line[..|line| - 1], line[|line| - 1];
      LastSurvivorSurvives(before, column, index);
      LastAtSnoc(Survivors(before, index), last, column);
    }
  }

  lemma {:induction false} IgnoredAlike(ignore: seq<nat>, kept: seq<nat>, source: nat)
    requires source in kept
    ensures Positions(kept)[source] in KeptIgnores(ignore, Positions(kept)) <==> source in ignore
  {
    if ignore != [] {
      var before, last := ignore[..|ignore| - 1], ignore[|ignore| - 1];
      IgnoredAlike(before, kept, source);
      assert ignore == before + [last];
      assert last in Positions(kept) && Positions(kept)[last] == Positions(kept)[source] ==> last == source;
    }
  }

  lemma OriginKept(m: SourceMap, kept: seq<nat>, source: nat)
    requires source in kept
    ensures OriginOf(Filter(m, kept), Positions(kept)[source]) == OriginOf(m, source)
  {
    if m.ignore.Some? { IgnoredAlike(m.ignore.value, kept, source); }
  }

  lemma ResolveRemapped(m: SourceMap, kept: seq<nat>, s: Segment)
    requires Survives(s, Positions(kept)) && (s.Named? ==> s.name in KeptNames(m, kept))
    ensures Resolve(Filter(m, kept), Some(Remap(s, Positions(kept), Positions(KeptNames(m, kept))))) ==
              Resolve(m, Some(s))
  {
    if !s.Bare? { OriginKept(m, kept, s.source); }
  }

  /** Every position resolves, in the filtered map, to what the last surviving
      original segment at or before it meant. */
  lemma LookupFindsLastSurvivor(m: SourceMap, kept: seq<nat>, line: nat, column: nat)
    requires line < |m.lines|
    ensures OriginalPosition(Filter(m, kept), line, column)
         == Resolve(m, LastAt(Survivors(m.lines[line], Positions(kept)), column))
  {
    var index, names := Positions(kept), Positions(KeptNames(m, kept));
    LastAtRemapped(m.lines[line], column, index, names);
    LastSurvivorSurvives(m.lines[line], column, index);
    var hit := LastAt(Survivors(m.lines[line], index), column);
    if hit.Some? {
      if hit.value.Named? { LineNamesInAll(m.lines, index, line, hit.value.name); }
      ResolveRemapped(m, kept, hit.value);
    }
  }

  /** The last segment at or before a column that has no source or one of the kept ones. */
  function LastKept(line: Line, column: nat, kept: seq<nat>): Option<Segment> {
    if line == [] then None
    else
      var last := line[|line| - 1];
      if last.column <= column && (last.Bare? || last.source in kept) then Some(last)
      else LastKept(line[..|line| - 1], column, kept)
  }

  lemma {:induction false} LastKeptSurvives(line: Line, column: nat, kept: seq<nat>)
    ensures LastAt(Survivors(line, Positions(kept)), column) == LastKept(line, column, kept)
  {
    if line != [] {
      var before, last := line[..|line| - 1], line[|line| - 1];
      LastKeptSurvives(before, column, kept);
      LastAtSnoc(Survivors(before, Positions(kept)), last, column);
    }
  }

  /** Every position resolves, in the filtered map, to what the last segment before it
      without a source, or with a kept one, meant: same source, content, third-party mark,
      line, column and name. */
  lemma LookupSkipsDroppedSources(m: SourceMap, kept: seq<nat>, line: nat, column: nat)
    requires line < |m.lines|
    ensures OriginalPosition(Filter(m, kept), line, column) == Resolve(m, LastKept(m.lines[line], column, kept))
  {
    LookupFindsLastSurvivor(m, kept, line, column);
    LastKeptSurvives(m.lines[line], column, kept);
  }

  lemma {:induction false} KeptHitStays(line: Line, column: nat, kept: seq<nat>)
    requires var hit := LastAt(line, column); hit.Some? ==> hit.value.Bare? || hit.value.source in kept
    ensures LastKept(line, column, kept) == LastAt(line, column)
  {
    if line != [] && line[|line| - 1].column > column {
      KeptHitStays(line[..|line| - 1], column, kept);
    }
  }

  /** A position that hit nothing, a segment without a source, or a kept source resolves
      as before. */
  lemma KeptPositionsResolveAlike(m: SourceMap, kept: seq<nat>, line: nat, column: nat)
    requires line < |m.lines| ==>
               var hit := LastAt(m.lines[line], column); hit.Some? ==> hit.value.Bare? || hit.value.source in kept
    ensures OriginalPosition(Filter(m, kept), line, column) == OriginalPosition(m, line, column)
  {
    if line < |m.lines| {
      LookupSkipsDroppedSources(m, kept, line, column);
      KeptHitStays(m.lines[line], column, kept);
    }
  }

  function Columns(line: Line): seq<nat> {
    seq(|line|, i requires 0 <= i < |line| => line[i].column)
  }

  /** The columns of the segments that have no source or one of the kept ones. */
  function KeptColumns(line: Line, kept: seq<nat>): seq<nat> {
    if line == [] then []
    else
      var last := line[|line| - 1];
      KeptColumns(line[..|line| - 1], kept) + if last.Bare? || last.source in kept then [last.column] else []
  }

  lemma {:induction false} LineColumnsKept(line: Line, kept: seq<nat>, names: map<nat, nat>)
    ensures Columns(RemapLine(line, Positions(kept), names)) == KeptColumns(line, kept)
  {
    if line != [] { LineColumnsKept(line[..|line| - 1], kept, names); }
  }

  /** Line by line, the filter keeps exactly the segments without a source and those of
      kept sources, where they were and in their order. */
  lemma ColumnsAreKept(m: SourceMap, kept: seq<nat>, line: nat)
    requires line < |m.lines|
    ensures |Filter(m, kept).lines| == |m.lines| && Filter(m, kept).rest == m.rest
    ensures Columns(Filter(m, kept).lines[line]) == KeptColumns(m.lines[line], kept)
  {
    LineColumnsKept(m.lines[line], kept, Positions(KeptNames(m, kept)));
  }

  /** A position that hit a removed source does not always become unmapped: it does
      exactly when the last segment kept before it, if any, has no source. */
  lemma DroppedPositionsResolve(m: SourceMap, kept: seq<nat>, line: nat, column: nat)
    requires line < |m.lines|
    ensures var hit := LastKept(m.lines[line], column, kept);
            OriginalPosition(Filter(m, kept), line, column) == Nowhere <==> hit.None? || hit.value.Bare?
  {
    LookupSkipsDroppedSources(m, kept, line, column);
  }

  /** Vendor code behind application code on one line is blamed on the application. */
  lemma DroppedPositionMayBeMisattributed()
    ensures var m := SourceMap([Some("app"), Some("vendor")], None, [],
                               [[Mapped(0, 0, 3, 0), Mapped(10, 1, 7, 2)]], None, map[]);
            && OriginalPosition(m, 0, 12) == Somewhere(Origin(Some("vendor"), None, false), 7, 2, None)
            && OriginalPosition(Filter(m, [0]), 0, 12) == Somewhere(Origin(Some("app"), None, false), 3, 0, None)
  {
    var line := [Mapped(0, 0, 3, 0), Mapped(10, 1, 7, 2)];
    var m := SourceMap([Some("app"), Some("vendor")], None, [], [line], None, map[]);
    assert Positions([0]) == map[0 := 0];
    assert line[..1] == [Mapped(0, 0, 3, 0)] && line[..1][..0] == [];
    assert Survivors(line[..1], map[0 := 0]) == [Mapped(0, 0, 3, 0)];
    assert Survivors(line, map[0 := 0]) == [Mapped(0, 0, 3, 0)];
    LookupFindsLastSurvivor(m, [0], 0, 12);
  }

  // ---- Ranges --------------------------------------------------------------------------

  ghost predicate InRange(s: Segment, sources: nat, names: nat) {
    (!s.Bare? ==> s.source < sources) && (s.Named? ==> s.name < names)
  }

  lemma {:induction false} RemappedInRange(line: Line, kept: seq<nat>, names: seq<nat>, j: nat)
    requires forall n :: n in LineNames(line, Positions(kept)) ==> n in names
    requires j < |RemapLine(line, Positions(kept), Positions(names))|
    ensures InRange(RemapLine(line, Positions(kept), Positions(names))[j], |kept|, |names|)
  {
    var before, last := line[..|line| - 1], line[|line| - 1];
    assert forall n :: n in LineNames(before, Positions(kept)) ==> n in LineNames(line, Positions(kept));
    if j < |RemapLine(before, Positions(kept), Positions(names))| {
      RemappedInRange(before, kept, names, j);
    } else {
      assert last.Named? ==> last.name in LineNames(line, Positions(kept));
    }
  }

  lemma {:induction false} NameHasLine(lines: seq<Line>, index: map<nat, nat>, n: nat) returns (i: nat)
    requires n in AllNames(lines, index)
    ensures i < |lines| && n in LineNames(lines[i], index)
  {
    var k := |lines| - 1;
    if n in AllNames(lines[..k], index) {
      i := NameHasLine(lines[..k], index, n);
    } else {
      i := k;
    }
  }

  lemma {:induction false} NameHasSegment(line: Line, index: map<nat, nat>, names: map<nat, nat>, n: nat)
      returns (j: nat)
    requires n in LineNames(line, index)
    ensures j < |RemapLine(line, index, names)|
    ensures var s := RemapLine(line, index, names)[j]; s.Named? && s.name == Renumber(names, n)
  {
    var before := line[..|line| - 1];
    if n in LineNames(before, index) {
      j := NameHasSegment(before, index, names, n);
    } else {
      j := |RemapLine(before, index, names)|;
    }
  }

  lemma {:induction false} IgnoresInRange(ignore: seq<nat>, kept: seq<nat>)
    ensures forall i :: i in KeptIgnores(ignore, Positions(kept)) ==> i < |kept| && kept[i] in ignore
  {
    if ignore != [] {
      IgnoresInRange(ignore[..|ignore| - 1], kept);
    }
  }

  ghost predicate NameUsed(m: SourceMap, n: nat) {
    exists i, j :: 0 <= i < |m.lines| && 0 <= j < |m.lines[i]| && m.lines[i][j].Named? && m.lines[i][j].name == n
  }

  lemma OutputNameUsed(m: SourceMap, kept: seq<nat>, n: nat)
    requires n < |KeptNames(m, kept)|
    ensures NameUsed(Filter(m, kept), n)
  {
    var index, names := Positions(kept), KeptNames(m, kept);
    assert names[n] in names;
    var i := NameHasLine(m.lines, index, names[n]);
    var j := NameHasSegment(m.lines[i], index, Positions(names), names[n]);
    assert Filter(m, kept).lines[i][j].name == n;
  }

  /** Every index in the output points into the output, and no output name is unused. */
  lemma FilteredMapIsClosed(m: SourceMap, kept: seq<nat>)
    ensures var f := Filter(m, kept);
            && (forall i, j :: 0 <= i < |f.lines| && 0 <= j < |f.lines[i]| ==>
                  InRange(f.lines[i][j], |f.sources|, |f.names|))
            && (forall n :: 0 <= n < |f.names| ==> NameUsed(f, n))
            && (f.ignore.Some? ==> forall i :: i in f.ignore.value ==> i < |f.sources|)
  {
    var f, index, names := Filter(m, kept), Positions(kept), KeptNames(m, kept);
    forall i, j | 0 <= i < |f.lines| && 0 <= j < |f.lines[i]| ensures InRange(f.lines[i][j], |f.sources|, |f.names|) {
      forall n | n in LineNames(m.lines[i], index) ensures n in names {
        LineNamesInAll(m.lines, index, i, n);
      }
      RemappedInRange(m.lines[i], kept, names, j);
    }
    forall n | 0 <= n < |f.names| ensures NameUsed(f, n) {
      OutputNameUsed(m, kept, n);
    }
    if m.ignore.Some? { IgnoresInRange(m.ignore.value, kept); }
  }

  // ---- Choosing what to keep -------------------------------------------------------------

  predicate OccursAt(text: string, part: string, i: nat) {
    i + |part| <= |text| && text[i..i + |part|] == part
  }

  predicate Includes(text: string, part: string) {
    exists i :: 0 <= i <= |text| && OccursAt(text, part, i)
  }

  predicate IsAppSource(source: string) {
    || Includes(source, "[project]/src/")
    || (Includes(source, "[project]/") && !Includes(source, "node_modules"))
  }

  lemma InsideTheProject()
    ensures forall text :: Includes(text, "[project]/src/") ==> Includes(text, "[project]/")
  {
    forall text | Includes(text, "[project]/src/") ensures Includes(text, "[project]/") {
      var i :| 0 <= i <= |text| && OccursAt(text, "[project]/src/", i);
      assert text[i..i + 10] == text[i..i + 14][..10] == "[project]/";
      assert OccursAt(text, "[project]/", i);
    }
  }

  function AppIndices(sources: seq<Text>): (kept: seq<nat>)
    requires forall i :: 0 <= i < |sources| ==> sources[i].Some?
    ensures forall i: nat :: i in kept <==> i < |sources| && IsAppSource(sources[i].value)
    ensures forall i, j :: 0 <= i < j < |kept| ==> kept[i] < kept[j]
  {
    if sources == [] then []
    else
      var k := |sources| - 1;
      var earlier := AppIndices(sources[..k]);
      assert forall j :: 0 <= j < |earlier| ==> earlier[j] in earlier;
      earlier + if IsAppSource(sources[k].value) then [k] else []
  }

  datatype Outcome = Removed | Stripped(to: SourceMap) | Untouched

  /** One file of the sweep. A null source makes the classification throw, and the
      file is left as it is. */
  function Treat(m: SourceMap): Outcome {
    if exists i :: 0 <= i < |m.sources| && m.sources[i].None? then Untouched
    else
      var kept := AppIndices(m.sources);
      if kept == [] then Removed
      else if |kept| < |m.sources| then Stripped(Filter(m, kept))
      else Untouched
  }

  lemma {:induction false} AllKept(sources: seq<Text>)
    requires forall i :: 0 <= i < |sources| ==> sources[i].Some?
    ensures |AppIndices(sources)| <= |sources|
    ensures |AppIndices(sources)| == |sources| ==> forall i :: 0 <= i < |sources| ==> IsAppSource(sources[i].value)
  {
    if sources != [] { AllKept(sources[..|sources| - 1]); }
  }

  predicate Readable(m: SourceMap) {
    forall i :: 0 <= i < |m.sources| ==> m.sources[i].Some?
  }

  lemma {:induction false} AllCounted(sources: seq<Text>)
    requires forall i :: 0 <= i < |sources| ==> sources[i].Some? && IsAppSource(sources[i].value)
    ensures |AppIndices(sources)| == |sources|
  {
    if sources != [] { AllCounted(sources[..|sources| - 1]); }
  }

  /** The sources picked are the application's. */
  lemma PickedAreTheApps(sources: seq<Text>, t: Text)
    requires forall i :: 0 <= i < |sources| ==> sources[i].Some?
    ensures t in Pick(sources, AppIndices(sources)) <==> t in sources && IsAppSource(t.value)
  {
    var kept := AppIndices(sources);
    if t in sources && IsAppSource(t.value) {
      var i :| 0 <= i < |sources| && sources[i] == t;
      var j :| 0 <= j < |kept| && kept[j] == i;
      assert Pick(sources, kept)[j] == t;
    }
    if t in Pick(sources, kept) {
      var j :| 0 <= j < |kept| && Pick(sources, kept)[j] == t;
      assert kept[j] in kept;
    }
  }

  lemma NoneCounted(sources: seq<Text>)
    requires forall i :: 0 <= i < |sources| ==> sources[i].Some?
    ensures AppIndices(sources) == [] <==> forall i :: 0 <= i < |sources| ==> !IsAppSource(sources[i].value)
  {
    if AppIndices(sources) != [] { assert AppIndices(sources)[0] in AppIndices(sources); }
  }

  /** What becomes of a file whose sources all have a name: removed when none of them is the
      application's, left alone when all of them are (and there is one), stripped to
      exactly those that are otherwise. */
  lemma FateOfAFile(m: SourceMap)
    requires Readable(m)
    ensures Treat(m).Removed? <==> forall i :: 0 <= i < |m.sources| ==> !IsAppSource(m.sources[i].value)
    ensures Treat(m).Untouched? <==>
              m.sources != [] && forall i :: 0 <= i < |m.sources| ==> IsAppSource(m.sources[i].value)
    ensures Treat(m).Stripped? ==>
              forall t :: t in Treat(m).to.sources <==> t in m.sources && IsAppSource(t.value)
  {
    AllKept(m.sources);
    NoneCounted(m.sources);
    if forall i :: 0 <= i < |m.sources| ==> IsAppSource(m.sources[i].value) { AllCounted(m.sources); }
    forall t ensures t in Pick(m.sources, AppIndices(m.sources)) <==> t in m.sources && IsAppSource(t.value) {
      PickedAreTheApps(m.sources, t);
    }
  }

  function Uploaded(m: SourceMap): Option<SourceMap> {
    match Treat(m)
    case Removed => None
    case Stripped(to) => Some(to)
    case Untouched => Some(m)
  }

  /** What is uploaded names application sources only, exactly when no source is null. */
  lemma UploadsAreApplicationOnly(m: SourceMap)
    ensures (forall i :: 0 <= i < |m.sources| ==> m.sources[i].Some?) <==>
            (Uploaded(m).Some? ==> forall i :: 0 <= i < |Uploaded(m).value.sources| ==>
               Uploaded(m).value.sources[i].Some? && IsAppSource(Uploaded(m).value.sources[i].value))
  {
    if forall i :: 0 <= i < |m.sources| ==> m.sources[i].Some? {
      AllKept(m.sources);
      var kept := AppIndices(m.sources);
      forall i | 0 <= i < |kept| ensures kept[i] < |m.sources| && IsAppSource(m.sources[kept[i]].value) {
        assert kept[i] in kept;
      }
    }
  }

  /** No path outside the project is uploaded, and none of node_modules but below
      [project]/src/. */
  lemma UploadsStayInsideTheProject(m: SourceMap, source: Text)
    requires Readable(m) && Uploaded(m).Some? && source in Uploaded(m).value.sources
    ensures source.Some? && Includes(source.value, "[project]/")
    ensures Includes(source.value, "node_modules") ==> Includes(source.value, "[project]/src/")
  {
    UploadsAreApplicationOnly(m);
    InsideTheProject();
  }
}
